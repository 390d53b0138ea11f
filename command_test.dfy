/**
 * The `Command` double used by youki's tests: instead of entering namespaces
 * it records the arguments of every `set_ns` and `unshare` call, in call
 * order, so that a test can read them back afterwards.
 */
module CommandTest {
  import opened Wrappers
  import opened RustStr
  import opened Errors

  /** `nix::sched::CloneFlags`: a set of `CLONE_*` bits held in a C `int`. */
  datatype CloneFlags = CloneFlags(bits: i32)

  /** `TestHelperCommand`: two append-only call logs. */
  class TestHelperCommand {
    /** The `(rawfd, nstype)` argument pairs of the `set_ns` calls so far. */
    var setNsArgs: seq<(i32, CloneFlags)>
    /** The `flags` arguments of the `unshare` calls so far. */
    var unshareArgs: seq<CloneFlags>

    /** `Default::default`: nothing has been recorded yet. */
    constructor Default()
      ensures setNsArgs == [] && unshareArgs == []
    {
      setNsArgs := [];
      unshareArgs := [];
    }

    /** `set_ns`: record the pair at the end of its log and succeed. */
    method SetNs(rawfd: i32, nstype: CloneFlags) returns (r: Outcome<Error>)
      modifies this
      ensures r == Pass
      ensures setNsArgs == old(setNsArgs) + [(rawfd, nstype)]
      ensures unshareArgs == old(unshareArgs)
    {
      setNsArgs := setNsArgs + [(rawfd, nstype)];
      r := Pass;
    }

    /** `unshare`: record the flags at the end of its log and succeed. */
    method Unshare(flags: CloneFlags) returns (r: Outcome<Error>)
      modifies this
      ensures r == Pass
      ensures unshareArgs == old(unshareArgs) + [flags]
      ensures setNsArgs == old(setNsArgs)
    {
      unshareArgs := unshareArgs + [flags];
      r := Pass;
    }

    /** `get_setns_args`: a copy of every recorded `set_ns` pair, in call order. */
    method GetSetnsArgs() returns (args: seq<(i32, CloneFlags)>)
      ensures args == setNsArgs
    {
      args := setNsArgs;
    }

    /** `get_unshare_args`: a copy of every recorded `unshare` flag set, in call order. */
    method GetUnshareArgs() returns (args: seq<CloneFlags>)
      ensures args == unshareArgs
    {
      args := unshareArgs;
    }
  }
}
