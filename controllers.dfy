/** The nine cgroup v1 controllers the manager drives, and their canonical names. */
module Controllers {
  import opened Wrappers

  datatype ControllerType =
    | Cpu | CpuSet | Devices | HugeTlb | Memory | Pids | Blkio | NetworkPriority | NetworkClassifier
  {
    /** The host-visible name: the key of the manager's map. */
    function Name(): string {
      match this
      case Cpu => "cpu"
      case CpuSet => "cpuset"
      case Devices => "devices"
      case HugeTlb => "hugetlb"
      case Memory => "memory"
      case Pids => "pids"
      case Blkio => "blkio"
      case NetworkPriority => "net_prio"
      case NetworkClassifier => "net_cls"
    }
  }

  /** The controllers in declaration order. */
  const CONTROLLERS: seq<ControllerType> :=
    [Cpu, CpuSet, Devices, HugeTlb, Memory, Pids, Blkio, NetworkPriority, NetworkClassifier]

  /** The names of all controllers. */
  function Names(): set<string> {
    set c | c in CONTROLLERS :: c.Name()
  }

  /** The string dispatch of `apply`: the controller whose arm matches `key`,
      or None for the `unreachable!` arm. */
  function FromName(key: string): (r: Option<ControllerType>)
    ensures r.Some? ==> r.value.Name() == key
    ensures r.None? <==> key !in Names()
  {
    match key
    case "cpu" => Some(Cpu)
    case "cpuset" => Some(CpuSet)
    case "devices" => Some(Devices)
    case "hugetlb" => Some(HugeTlb)
    case "memory" => Some(Memory)
    case "pids" => Some(Pids)
    case "blkio" => Some(Blkio)
    case "net_prio" => Some(NetworkPriority)
    case "net_cls" => Some(NetworkClassifier)
    case _ => None
  }

  /** The list holds every controller exactly once, under distinct names. */
  lemma ControllersAreDistinct()
    ensures |CONTROLLERS| == 9
    ensures forall c: ControllerType :: c in CONTROLLERS
    ensures forall i, j :: 0 <= i < j < |CONTROLLERS| ==> CONTROLLERS[i].Name() != CONTROLLERS[j].Name()
  {
    forall c: ControllerType ensures c in CONTROLLERS {
      match c
      case Cpu => assert CONTROLLERS[0] == c;
      case CpuSet => assert CONTROLLERS[1] == c;
      case Devices => assert CONTROLLERS[2] == c;
      case HugeTlb => assert CONTROLLERS[3] == c;
      case Memory => assert CONTROLLERS[4] == c;
      case Pids => assert CONTROLLERS[5] == c;
      case Blkio => assert CONTROLLERS[6] == c;
      case NetworkPriority => assert CONTROLLERS[7] == c;
      case NetworkClassifier => assert CONTROLLERS[8] == c;
    }
  }

  /** Each controller's name dispatches back to that controller. */
  lemma FromNameOfName(c: ControllerType)
    ensures FromName(c.Name()) == Some(c)
  {
  }
}
