/** The agent control block shared by the scheduler, the registry and the checkpoints. */
module AvpModel {
  import opened Prelude

  type U64 = n: nat | n < 0x1_0000_0000_0000_0000

  datatype AgentState =
    | Created | Ready | Running | WaitingLLM | WaitingTool | WaitingIPC | Suspended
    | Completed | Failed | Killed
    | Reported(name: string)

  datatype CpuStat = CpuStat(nrThrottled: U64, throttledUsec: U64)

  datatype Avp = Avp(
    id: string,
    taskId: string,
    role: string,
    state: AgentState,
    priority: int,
    weight: int,
    vruntime: U64,
    consumedTokens: int,
    pageTable: seq<string>,
    contextPages: seq<string>,
    pid: int,
    memoryCurrent: int,
    pidsCurrent: int,
    cpuStat: Option<CpuStat>,
    createdAt: int,
    updatedAt: int,
    lastSeen: int)

  /** The state a worker's report names. */
  function StateNamed(name: string): AgentState {
    match name
    case "CREATED" => Created
    case "READY" => Ready
    case "RUNNING" => Running
    case "WAITING_LLM" => WaitingLLM
    case "WAITING_TOOL" => WaitingTool
    case "WAITING_IPC" => WaitingIPC
    case "SUSPENDED" => Suspended
    case "COMPLETED" => Completed
    case "FAILED" => Failed
    case "KILLED" => Killed
    case _ => Reported(name)
  }

  /** The name of a state, as messages and snapshots spell it. */
  function StateName(state: AgentState): string {
    match state
    case Created => "CREATED"
    case Ready => "READY"
    case Running => "RUNNING"
    case WaitingLLM => "WAITING_LLM"
    case WaitingTool => "WAITING_TOOL"
    case WaitingIPC => "WAITING_IPC"
    case Suspended => "SUSPENDED"
    case Completed => "COMPLETED"
    case Failed => "FAILED"
    case Killed => "KILLED"
    case Reported(name) => name
  }

  /** A report's name is that of the state it leads to, and a state the runtime knows is recognised as such. */
  lemma StateNameRoundTrip(name: string, state: AgentState)
    ensures StateName(StateNamed(name)) == name
    ensures !state.Reported? ==> StateNamed(StateName(state)) == state
  {
  }

  predicate Terminal(state: AgentState) {
    state == Completed || state == Failed || state == Killed
  }

  ghost predicate UniqueIds(agents: seq<Avp>) {
    forall i, j :: 0 <= i < j < |agents| ==> agents[i].id != agents[j].id
  }
}
