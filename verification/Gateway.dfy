/** The system call gateway: the object that drives the page store, the blackboard and the workspaces. */
module Gateway {
  import opened Prelude
  import opened AvpModel
  import opened CvmModel
  import opened GatewayModel
  import CvmStore
  import Bb = Blackboard
  import Ws = Workspace
  import Wm = WorkspaceManager
  import Registry

  /** One audited call. */
  datatype Record = Record(agentId: AgentId, name: string, status: Status)

  /** The language model's client: there may be none, and a completion may fail. */
  datatype Client = Missing | Failing | Answering

  /** How a completion ends; an empty prompt is not sent. */
  function Answered(client: Client, prompt: Bytes): Status {
    if prompt == [] then StatusDenied else if client == Answering then StatusOK else StatusError
  }

  /** A call with its arguments. */
  datatype Request =
    | ReadContext(controls: Controls)
    | WriteDelta(content: Option<Bytes>)
    | PublishPage(topic: Option<string>, pageId: Option<PageId>, sizeBytes: int, mode: string, shm: bool)
    | PollTopic(topic: Option<string>)
    | Exec(command: string, cwd: Cwd, run: ToolRun, build: Ws.Io, finish: Ws.Io)
    | Spawn(child: AgentId, role: string, taskId: string, build: Ws.Io)
    | Report(taskId: string, report: Option<string>)
    | AskModel(prompt: Bytes, client: Client)
    | Unsupported(name: string)

  function NameOf(request: Request): string {
    match request
    case ReadContext(_) => "context.materialize"
    case WriteDelta(_) => "context.write_delta"
    case PublishPage(_, _, _, _, _) => "ipc.publish"
    case PollTopic(_) => "ipc.poll"
    case Exec(_, _, _, _, _) => "tool.exec"
    case Spawn(_, _, _, _) => "agent.spawn"
    case Report(_, _) => "agent.report"
    case AskModel(_, _) => "llm.call"
    case Unsupported(name) => name
  }

  predicate UsesPages(request: Request) {
    request.ReadContext? || request.WriteDelta? || request.PollTopic? || request.Spawn? || request.AskModel?
  }

  function ReportOf(agent: AgentId, taskId: string, status: string): Registry.Message {
    Registry.Message("report", agent, "", taskId, 0, status)
  }

  /** The registry with the child in it, stamped if a workspace was attached. */
  function Enlisted(agents: Registry.Agents, child: AgentId, role: string, taskId: string, now: int, attached: bool)
    : Registry.Agents
  {
    var known := if child in agents then agents else Registry.Next(agents, Registry.Create(child, role, taskId, now));
    if attached then Registry.Next(known, Registry.Attach(child, now)) else known
  }

  /** A report that is passed on leaves the agent in the state it names, where its entry is its own or new. */
  lemma ReportSetsState(agents: Registry.Agents, agent: AgentId, taskId: string, status: string, now: int)
    requires status != "" && (agent in agents ==> agents[agent].id == agent)
    ensures var r := Registry.MessageStep(agents, ReportOf(agent, taskId, status), now);
      && agent in r && StateName(r[agent].state) == status && r[agent].lastSeen == now
      && (agent !in agents ==> r[agent].taskId == taskId)
  {
    Registry.ContactLeaves(agents, ReportOf(agent, taskId, status), now);
  }

  /** A spawned child is registered as created, on its task and in its role, unless it is known; then it stays as it was. */
  lemma EnlistedOnce(agents: Registry.Agents, child: AgentId, role: string, taskId: string, now: int, attached: bool)
    ensures var r := Enlisted(agents, child, role, taskId, now, attached);
      && r.Keys == agents.Keys + {child}
      && (forall id :: id in agents && id != child ==> r[id] == agents[id])
      && (child in agents ==> r[child] == agents[child].(updatedAt := if attached then now else agents[child].updatedAt))
      && (child !in agents ==>
            r[child].id == child && r[child].role == role && r[child].taskId == taskId && StateName(r[child].state) == "CREATED")
  {
  }

  class Gateway {
    const cvm: CvmStore.Store?
    const ipc: Bb.Blackboard?
    const workspaces: Wm.Manager?
    const registry: Registry.WorkerRegistry?
    /** Whether a spawner is configured. */
    const spawns: bool
    var records: seq<Record>

    constructor (cvm: CvmStore.Store?, ipc: Bb.Blackboard?, workspaces: Wm.Manager?, registry: Registry.WorkerRegistry?,
                 spawns: bool)
      ensures this.cvm == cvm && this.ipc == ipc && this.workspaces == workspaces && this.registry == registry
      ensures this.spawns == spawns && records == []
    {
      this.cvm, this.ipc, this.workspaces, this.registry, this.spawns := cvm, ipc, workspaces, registry, spawns;
      records := [];
    }

    /** Appends the audit record of a call that ended with `status`. */
    method Audit(agent: AgentId, name: string, status: Status)
      modifies this`records
      ensures records == old(records) + [Record(agent, name, status)]
    {
      records := records + [Record(agent, name, status)];
    }

    /** Applies pin, compress and evict controls; `order` is how eviction's sort came out. */
    method ApplyCvmControls(store: CvmStore.Store, controls: Controls, now: int)
      returns (r: Result<()>, ghost order: seq<PageId>)
      modifies store
      ensures Controlled(store.codec, old(store.Value()), controls, now, store.Value(), r, order)
    {
      order := [];
      ghost var whole := PinAll(store.Value(), controls.pins, now);
      assert controls.pins[0..] == controls.pins;
      for i := 0 to |controls.pins|
        invariant PinAll(store.Value(), controls.pins[i..], now) == whole
      {
        assert controls.pins[i..][0] == controls.pins[i] && controls.pins[i..][1..] == controls.pins[i + 1..];
        r := store.PinPage(controls.pins[i], now);
        if r.Err? {
          return;
        }
      }
      assert controls.pins[|controls.pins|..] == [];
      r := Ok(());
      if controls.compressCold {
        var _, _ := store.CompressColdPages(if controls.maxAccess > 1 then controls.maxAccess else 1, now);
      }
      if controls.evictMaxBytes > 0 {
        var _, _, o := store.EvictColdPages(controls.evictMaxBytes);
        order := o;
      }
    }

    /** `mid` is the store between the controls and the read. */
    method ContextMaterialize(agent: AgentId, controls: Controls, now: int)
      returns (status: Status, content: Bytes, ghost mid: State, ghost applied: Result<()>, ghost order: seq<PageId>)
      modifies this`records, cvm
      ensures records == old(records) + [Record(agent, "context.materialize", status)]
      ensures cvm == null ==> status == StatusError && content == []
      ensures cvm != null ==>
        && Controlled(cvm.codec, old(cvm.Value()), controls, now, mid, applied, order)
        && if applied.Err? then status == StatusError && content == [] && cvm.Value() == mid
           else
             var (end, text) := MaterializeStep(cvm.codec, mid, agent, now);
             && cvm.Value() == end
             && status == (if text.Ok? then StatusOK else StatusError)
             && content == (if text.Ok? then text.value else [])
    {
      status, content, mid, applied, order := StatusError, [], EMPTY_STORE, Ok(()), [];
      if cvm != null {
        var r;
        r, order := ApplyCvmControls(cvm, controls, now);
        mid, applied := cvm.Value(), r;
        if r.Ok? {
          var text := cvm.Materialize(agent, now);
          if text.Ok? {
            status, content := StatusOK, text.value;
          }
        }
      }
      Audit(agent, "context.materialize", status);
    }

    method ContextWriteDelta(agent: AgentId, content: Option<Bytes>, now: int) returns (status: Status)
      modifies this`records, cvm
      ensures records == old(records) + [Record(agent, "context.write_delta", status)]
      ensures cvm == null ==> status == StatusError
      ensures cvm != null && content.None? ==> status == StatusDenied && cvm.Value() == old(cvm.Value())
      ensures cvm != null && content.Some? ==>
        var mid := CreateStep(cvm.codec, old(cvm.Value()), KIND_DELTA, content.value, now).0;
        status == StatusOK && cvm.Value() == MountStep(mid, agent, cvm.codec.hash(content.value), now).0
    {
      status := StatusError;
      if cvm != null {
        if content.None? {
          status := StatusDenied;
        } else {
          var page := cvm.WriteDelta(agent, content.value, now);
          status := if page.Ok? then StatusOK else StatusError;
        }
      }
      Audit(agent, "context.write_delta", status);
    }

    /** Publishes a page reference; `shm` says whether a requested shared-memory transfer worked. */
    method IpcPublish(agent: AgentId, topic: Option<string>, pageId: Option<PageId>, sizeBytes: int, mode: string, shm: bool)
      returns (status: Status)
      modifies this`records, ipc
      ensures records == old(records) + [Record(agent, "ipc.publish", status)]
      ensures status == if ipc == null then StatusError
                        else if topic.GetOr("") == "" || pageId.GetOr("") == "" then StatusDenied
                        else if cvm != null && pageId.value !in cvm.pages then StatusDenied
                        else StatusOK
      ensures ipc != null && status != StatusOK ==> ipc.Value() == old(ipc.Value())
      ensures ipc != null && status == StatusOK ==>
        var size := if cvm != null && sizeBytes <= 0 then cvm.pages[pageId.value].bytes else sizeBytes;
        var actual := if cvm != null && mode == "memfd-mmap" && shm then mode else "page-reference";
        ipc.Value() == Bb.PublishStep(old(ipc.Value()), Bb.Message(topic.value, agent, pageId.value, if size > 0 then size else 0, actual))
    {
      status := StatusError;
      if ipc != null {
        if topic.None? || topic.value == "" || pageId.None? || pageId.value == "" {
          status := StatusDenied;
        } else if cvm != null && pageId.value !in cvm.pages {
          status := StatusDenied;
        } else {
          var size, actual := sizeBytes, "page-reference";
          if cvm != null {
            if size <= 0 {
              size := cvm.pages[pageId.value].bytes;
            }
            if mode == "memfd-mmap" && shm {
              actual := "memfd-mmap";
            }
          }
          var _ := ipc.Publish(topic.value, agent, pageId.value, size, actual);
          status := StatusOK;
        }
      }
      Audit(agent, "ipc.publish", status);
    }

    /** Takes the new messages of a topic and mounts their pages, one after the other. */
    method IpcPoll(agent: AgentId, topic: Option<string>, now: int) returns (status: Status, pageIds: seq<PageId>)
      modifies this`records, ipc, cvm
      ensures records == old(records) + [Record(agent, "ipc.poll", status)]
      ensures ipc == null ==> status == StatusError && pageIds == []
      ensures ipc != null && topic.GetOr("") == "" ==>
        status == StatusDenied && pageIds == [] && ipc.Value() == old(ipc.Value())
      ensures ipc != null && topic.GetOr("") != "" ==>
        && ipc.Value() == Bb.PollStep(old(ipc.Value()), topic.value, agent).0
        && var delivered := Bb.PageIds(Bb.PollStep(old(ipc.Value()), topic.value, agent).1);
           if cvm == null then status == StatusOK && pageIds == delivered
           else
             var (s, b, ids, r) := PollCall(old(cvm.Value()), old(ipc.Value()), topic.value, agent, now);
             && cvm.Value() == s
             && status == (if r.Ok? then StatusOK else StatusError)
             && pageIds == (if r.Ok? then delivered else [])
    {
      status, pageIds := StatusError, [];
      if ipc != null {
        if topic.None? || topic.value == "" {
          status := StatusDenied;
        } else {
          var messages, _ := ipc.Poll(topic.value, agent);
          var ids := Bb.PageIds(messages);
          var r := Ok(());
          if cvm != null {
            r := MountPages(cvm, agent, ids, now);
          }
          if r.Ok? {
            status, pageIds := StatusOK, ids;
          }
        }
      }
      Audit(agent, "ipc.poll", status);
    }

    method MountPages(store: CvmStore.Store, agent: AgentId, ids: seq<PageId>, now: int) returns (r: Result<()>)
      modifies store
      ensures (store.Value(), r) == MountAll(old(store.Value()), agent, ids, now)
    {
      ghost var whole := MountAll(store.Value(), agent, ids, now);
      assert ids[0..] == ids;
      for i := 0 to |ids|
        invariant MountAll(store.Value(), agent, ids[i..], now) == whole
      {
        assert ids[i..][0] == ids[i] && ids[i..][1..] == ids[i + 1..];
        r := store.MountPage(agent, ids[i], now);
        if r.Err? {
          return;
        }
      }
      assert ids[|ids|..] == [];
      r := Ok(());
    }

    /**
     * Spawns a child: it is registered and given a workspace where the server keeps a registry, and gets its parent's
     * pages, passing over any that cannot be mounted.
     */
    method AgentSpawn(parent: AgentId, child: AgentId, role: string, taskId: string, build: Ws.Io, now: int)
      returns (status: Status)
      modifies this`records, cvm, registry, workspaces
      ensures records == old(records) + [Record(parent, "agent.spawn", status)]
      ensures status == if !spawns then StatusError else if role == "" then StatusDenied else StatusOK
      ensures cvm != null && (status != StatusOK || parent == "") ==> cvm.Value() == old(cvm.Value())
      ensures cvm != null && status == StatusOK && parent != "" ==>
        cvm.Value() == MountEach(old(cvm.Value()), child, Table(old(cvm.Value()), parent), now)
      ensures workspaces != null && (status != StatusOK || registry == null) ==> workspaces.Value() == old(workspaces.Value())
      ensures workspaces != null && status == StatusOK && registry != null ==>
        workspaces.Value() == WithWorkspace(old(workspaces.Value()), child, build).0
      ensures registry != null && status != StatusOK ==> registry.agents == old(registry.agents)
      ensures registry != null && status == StatusOK ==>
        registry.agents == Enlisted(old(registry.agents), child, role, taskId, now,
                                    workspaces != null && WithWorkspace(old(workspaces.Value()), child, build).1)
    {
      status := if spawns then StatusDenied else StatusError;
      if spawns && role != "" {
        if registry != null {
          Enlist(registry, child, role, taskId, build, now);
        }
        if parent != "" && cvm != null {
          Inherit(cvm, parent, child, now);
        }
        status := StatusOK;
      }
      Audit(parent, "agent.spawn", status);
    }

    /** Registers the child unless it is known, and attaches a workspace if there is one or one can be made. */
    method Enlist(agents: Registry.WorkerRegistry, child: AgentId, role: string, taskId: string, build: Ws.Io, now: int)
      modifies agents, workspaces
      ensures workspaces != null ==> workspaces.Value() == WithWorkspace(old(workspaces.Value()), child, build).0
      ensures agents.agents == Enlisted(old(agents.agents), child, role, taskId, now,
                                        workspaces != null && WithWorkspace(old(workspaces.Value()), child, build).1)
    {
      if child !in agents.agents {
        var _ := agents.CreateAgent(child, role, taskId, now);
      }
      if workspaces != null {
        var ready := child in workspaces.workspaces;
        if !ready {
          var ws := workspaces.Create(child, Ws.Fixture, build);
          ready := ws.Ok?;
        }
        if ready {
          agents.SetWorkspace(child, now);
        }
      }
    }

    method Inherit(store: CvmStore.Store, parent: AgentId, child: AgentId, now: int)
      modifies store
      ensures store.Value() == MountEach(old(store.Value()), child, Table(old(store.Value()), parent), now)
    {
      var ids := if parent in store.pageTables then store.pageTables[parent] else [];
      ghost var whole := MountEach(store.Value(), child, ids, now);
      assert ids[0..] == ids;
      for i := 0 to |ids|
        invariant MountEach(store.Value(), child, ids[i..], now) == whole
      {
        assert ids[i..][0] == ids[i] && ids[i..][1..] == ids[i + 1..];
        var _ := store.MountPage(child, ids[i], now);
      }
      assert ids[|ids|..] == [];
    }

    /**
     * Asks the language model. Without a prompt the agent's context is the prompt, and reading it counts as any other
     * read does.
     */
    method LlmCall(agent: AgentId, prompt: Bytes, client: Client, now: int) returns (status: Status)
      modifies this`records, cvm
      ensures records == old(records) + [Record(agent, "llm.call", status)]
      ensures client == Missing ==> status == StatusError
      ensures prompt != [] ==> status == if client == Answering then StatusOK else StatusError
      ensures cvm != null && (client == Missing || prompt != []) ==> cvm.Value() == old(cvm.Value())
      ensures client != Missing && prompt == [] && cvm == null ==> status == StatusDenied
      ensures client != Missing && prompt == [] && cvm != null ==>
        var (end, text) := MaterializeStep(cvm.codec, old(cvm.Value()), agent, now);
        && cvm.Value() == end
        && (status == StatusDenied <==> text == Ok([])) && (status == StatusOK <==> text.Ok? && text.value != [] && client == Answering)
        && status != StatusTimeout
    {
      status := StatusError;
      if client != Missing {
        if prompt == [] && cvm != null {
          var text := cvm.Materialize(agent, now);
          if text.Ok? {
            status := Answered(client, text.value);
          }
        } else {
          status := Answered(client, prompt);
        }
      }
      Audit(agent, "llm.call", status);
    }

    /**
     * Runs a command in the agent's workspace; commits if it succeeded, rolls back otherwise. The workspace comes
     * first: it is there even if the working directory then escapes it or cannot be made.
     */
    method ToolExec(agent: AgentId, command: string, cwd: Cwd, run: ToolRun, build: Ws.Io, finish: Ws.Io)
      returns (status: Status, workspaceError: bool)
      modifies this`records, workspaces
      ensures records == old(records) + [Record(agent, "tool.exec", status)]
      ensures command == "" ==> status == StatusDenied && !workspaceError
      ensures command == "" && workspaces != null ==> workspaces.Value() == old(workspaces.Value())
      ensures command != "" && cwd == Usable && workspaces != null ==>
        (workspaces.Value(), status, workspaceError) == ToolCall(old(workspaces.Value()), agent, run, build, finish)
      ensures command != "" && cwd == Usable && workspaces == null ==>
        && !workspaceError && (status == StatusOK <==> agent != "" && run.outcome == Succeeded)
        && (status == StatusTimeout <==> agent != "" && run.outcome == TimedOut) && status != StatusDenied
      ensures command != "" && cwd != Usable && workspaces != null ==>
        (workspaces.Value(), status, workspaceError) == UnstartedCall(old(workspaces.Value()), agent, cwd, build)
      ensures command != "" && cwd != Usable && workspaces == null ==>
        !workspaceError && status == if agent == "" || cwd == Unmade then StatusError else StatusDenied
    {
      status, workspaceError := StatusDenied, false;
      if command != "" {
        var ready := agent != "";
        if ready && workspaces != null && agent !in workspaces.workspaces {
          var ws := workspaces.Create(agent, Ws.Fixture, build);
          ready := ws.Ok?;
        }
        if !ready || cwd == Unmade {
          status := StatusError;
        } else if cwd == Usable && workspaces == null {
          status := UnmanagedStatus(run.outcome);
        } else if cwd == Usable {
          status, workspaceError := RunCommand(workspaces, agent, run, finish);
        }
      }
      Audit(agent, "tool.exec", status);
    }

    method RunCommand(manager: Wm.Manager, agent: AgentId, run: ToolRun, finish: Ws.Io)
      returns (status: Status, workspaceError: bool)
      modifies manager
      ensures (manager.Value(), status, workspaceError) == Finished(old(manager.Value()), agent, run, finish)
    {
      manager.RunTool(agent, run.upper, run.merged);
      match run.outcome {
        case TimedOut =>
          var r := manager.Rollback(agent, finish);
          status, workspaceError := StatusTimeout, r.Err?;
        case Failed =>
          var r := manager.Rollback(agent, finish);
          status, workspaceError := StatusError, r.Err?;
        case Succeeded =>
          var r := manager.Commit(agent, finish);
          status, workspaceError := if r.Ok? then StatusOK else StatusError, r.Err?;
      }
    }

    /** Passes a worker's report on to the registry. */
    method AgentReport(agent: AgentId, taskId: string, report: Option<string>, now: int) returns (status: Status)
      modifies this`records, registry
      ensures records == old(records) + [Record(agent, "agent.report", status)]
      ensures status == if report.GetOr("") == "" then StatusDenied else StatusOK
      ensures registry != null ==>
        registry.agents == if status == StatusDenied then old(registry.agents)
                           else Registry.MessageStep(old(registry.agents), ReportOf(agent, taskId, report.GetOr("")), now)
    {
      status := StatusDenied;
      if report.GetOr("") != "" {
        if registry != null {
          registry.HandleMessage(ReportOf(agent, taskId, report.GetOr("")), now);
        }
        status := StatusOK;
      }
      Audit(agent, "agent.report", status);
    }

    /**
     * Every call leaves exactly one record, with its name and outcome; a name nobody serves is denied; and a call
     * changes no machine but those its kind is for.
     */
    method Handle(agent: AgentId, request: Request, now: int) returns (status: Status)
      modifies this`records, cvm, ipc, workspaces, registry
      ensures records == old(records) + [Record(agent, NameOf(request), status)]
      ensures request.Unsupported? ==> status == StatusDenied
      ensures cvm != null && !UsesPages(request) ==> cvm.Value() == old(cvm.Value())
      ensures ipc != null && !request.PublishPage? && !request.PollTopic? ==> ipc.Value() == old(ipc.Value())
      ensures workspaces != null && !request.Exec? && !request.Spawn? ==> workspaces.Value() == old(workspaces.Value())
      ensures registry != null && !request.Report? && !request.Spawn? ==> registry.agents == old(registry.agents)
    {
      if UsesPages(request) {
        status := ServePages(agent, request, now);
      } else {
        status := ServeOther(agent, request, now);
      }
    }

    method ServePages(agent: AgentId, request: Request, now: int) returns (status: Status)
      requires UsesPages(request)
      modifies this`records, cvm, ipc, workspaces, registry
      ensures records == old(records) + [Record(agent, NameOf(request), status)]
      ensures ipc != null && !request.PollTopic? ==> ipc.Value() == old(ipc.Value())
      ensures workspaces != null && !request.Spawn? ==> workspaces.Value() == old(workspaces.Value())
      ensures registry != null && !request.Spawn? ==> registry.agents == old(registry.agents)
    {
      match request {
        case ReadContext(controls) =>
          var outcome, _, _, _, _ := ContextMaterialize(agent, controls, now);
          status := outcome;
        case WriteDelta(content) =>
          status := ContextWriteDelta(agent, content, now);
        case PollTopic(topic) =>
          var outcome, _ := IpcPoll(agent, topic, now);
          status := outcome;
        case Spawn(child, role, taskId, build) =>
          status := AgentSpawn(agent, child, role, taskId, build, now);
        case AskModel(prompt, client) =>
          status := LlmCall(agent, prompt, client, now);
      }
    }

    method ServeOther(agent: AgentId, request: Request, now: int) returns (status: Status)
      requires !UsesPages(request)
      modifies this`records, ipc, workspaces, registry
      ensures records == old(records) + [Record(agent, NameOf(request), status)]
      ensures request.Unsupported? ==> status == StatusDenied
      ensures ipc != null && !request.PublishPage? ==> ipc.Value() == old(ipc.Value())
      ensures workspaces != null && !request.Exec? ==> workspaces.Value() == old(workspaces.Value())
      ensures registry != null && !request.Report? ==> registry.agents == old(registry.agents)
    {
      match request {
        case PublishPage(topic, pageId, size, mode, shm) =>
          status := IpcPublish(agent, topic, pageId, size, mode, shm);
        case Exec(command, cwd, run, build, finish) =>
          var outcome, _ := ToolExec(agent, command, cwd, run, build, finish);
          status := outcome;
        case Report(taskId, report) =>
          status := AgentReport(agent, taskId, report, now);
        case Unsupported(name) =>
          status := StatusDenied;
          Audit(agent, name, status);
      }
    }
  }
}
