/** The worker registry and its failure detector: who is failed for silence, and who is spared. */
module Registry {
  import opened Prelude
  import opened AvpModel

  datatype Message = Message(kind: string, agentId: string, role: string, taskId: string, pid: int, status: string)

  type Agents = map<string, Avp>

  predicate IsContact(m: Message) {
    m.kind == "register" || m.kind == "heartbeat" || m.kind == "report"
  }

  /** The zero control block: what a lookup of an absent agent yields. */
  const ZERO_AGENT := Avp("", "", "", Reported(""), 0, 0, 0, 0, [], [], 0, 0, 0, None, 0, 0, 0)

  function Fresh(id: string, role: string, taskId: string, now: int): Avp {
    ZERO_AGENT.(id := id, taskId := taskId, role := role, state := Created, priority := 100, weight := 100,
          createdAt := now, updatedAt := now)
  }

  function AgentFor(agents: Agents, m: Message, now: int): Avp {
    if m.agentId in agents then agents[m.agentId] else Fresh(m.agentId, m.role, m.taskId, now)
  }

  /** The control block after a contact. */
  function Contacted(a: Avp, m: Message, now: int): Avp {
    var seen := a.(lastSeen := now, updatedAt := now);
    if m.kind == "register" then seen.(pid := m.pid, state := Running)
    else if m.kind == "heartbeat" then seen.(pid := if m.pid != 0 then m.pid else a.pid)
    else seen.(state := if m.status != "" then StateNamed(m.status) else a.state)
  }

  /** The entry is filed under the id inside the control block. */
  function MessageStep(agents: Agents, m: Message, now: int): Agents {
    if IsContact(m) then
      var a := Contacted(AgentFor(agents, m, now), m, now);
      agents[a.id := a]
    else agents
  }

  /** Fills in what a restored control block leaves at zero. */
  function Filled(a: Avp, now: int): Avp {
    a.(createdAt := if a.createdAt == 0 then now else a.createdAt,
       updatedAt := if a.updatedAt == 0 then now else a.updatedAt,
       priority := if a.priority == 0 then 100 else a.priority,
       weight := if a.weight == 0 then 100 else a.weight)
  }

  function Lookup(agents: Agents, id: string): Avp {
    if id in agents then agents[id] else ZERO_AGENT
  }

  predicate Silent(a: Avp, threshold: int) {
    a.pid != 0 && a.lastSeen != 0 && a.state != Failed && a.state != Killed && a.lastSeen < threshold
  }

  function Ticked(a: Avp, now: int, timeout: int): Avp {
    if Silent(a, now - timeout) then a.(state := Failed, updatedAt := now) else a
  }

  function TickStep(agents: Agents, now: int, timeout: int): Agents {
    map id | id in agents :: Ticked(agents[id], now, timeout)
  }

  // ----- runs -----

  datatype Op =
    | Contact(message: Message, now: int)
    | Tick(now: int, timeout: int)
    | Create(id: string, role: string, taskId: string, now: int)
    | Restore(agent: Avp, now: int)
    | SetState(id: string, state: AgentState, now: int)
    | Attach(id: string, now: int)

  function Next(agents: Agents, op: Op): Agents {
    match op
    case Contact(m, now) => MessageStep(agents, m, now)
    case Tick(now, timeout) => TickStep(agents, now, timeout)
    case Create(id, role, taskId, now) => agents[id := Fresh(id, role, taskId, now)]
    case Restore(a, now) => agents[a.id := Filled(a, now)]
    case SetState(id, state, now) => agents[id := Lookup(agents, id).(state := state, updatedAt := now)]
    case Attach(id, now) => agents[id := Lookup(agents, id).(updatedAt := now)]
  }

  function After(agents: Agents, ops: seq<Op>): Agents {
    if ops == [] then agents else Next(After(agents, ops[..|ops| - 1]), ops[|ops| - 1])
  }

  /** Every entry holds its own id, except blank ones made for agents nobody had registered. */
  ghost predicate Keyed(agents: Agents) {
    forall id :: id in agents ==>
      agents[id].id == id || (agents[id].id == "" && agents[id].pid == 0 && agents[id].lastSeen == 0)
  }

  lemma StepKeepsKeyed(agents: Agents, op: Op)
    requires Keyed(agents)
    ensures Keyed(Next(agents, op))
  {
  }

  lemma {:induction false} KeyedInEveryRun(agents: Agents, ops: seq<Op>)
    requires Keyed(agents)
    ensures Keyed(After(agents, ops))
  {
    if ops != [] {
      KeyedInEveryRun(agents, ops[..|ops| - 1]);
      StepKeepsKeyed(After(agents, ops[..|ops| - 1]), ops[|ops| - 1]);
    }
  }

  /** A contact is recorded under the agent's id unless that entry is a blank. */
  lemma ContactRecordedIffOwnEntry(agents: Agents, m: Message, now: int)
    requires Keyed(agents) && IsContact(m)
    ensures var r := MessageStep(agents, m, now);
      (m.agentId in r && r[m.agentId].lastSeen == now && r[m.agentId].id == m.agentId)
        <==> (m.agentId in agents ==> agents[m.agentId].id == m.agentId)
    ensures forall id :: id != m.agentId && id != "" ==> Lookup(MessageStep(agents, m, now), id) == Lookup(agents, id)
  {
  }

  /** What a caller finds of an agent after its message, where its entry is its own or new. */
  lemma ContactLeaves(agents: Agents, m: Message, now: int)
    requires IsContact(m) && (m.agentId in agents ==> agents[m.agentId].id == m.agentId)
    ensures m.agentId in MessageStep(agents, m, now)
    ensures var known, r := m.agentId in agents, MessageStep(agents, m, now)[m.agentId];
      && r.id == m.agentId && r.lastSeen == r.updatedAt == now
      && (m.kind == "register" ==> r.pid == m.pid && StateName(r.state) == "RUNNING")
      && (m.kind != "register" ==>
            r.pid == if m.kind == "heartbeat" && m.pid != 0 then m.pid else if known then agents[m.agentId].pid else 0)
      && (m.kind == "report" && m.status != "" ==> StateName(r.state) == m.status)
      && (m.kind == "heartbeat" || (m.kind == "report" && m.status == "") ==>
            if known then r.state == agents[m.agentId].state else StateName(r.state) == "CREATED")
    ensures var known, r := m.agentId in agents, MessageStep(agents, m, now)[m.agentId];
      // nothing else of a known agent changes; a new one starts from its message and the defaults
      if known then r == agents[m.agentId].(state := r.state, pid := r.pid, lastSeen := now, updatedAt := now)
      else r == Avp(m.agentId, m.taskId, m.role, r.state, 100, 100, 0, 0, [], [], r.pid, 0, 0, None, now, now, now)
  {
  }

  /** Setting the state of an unknown agent makes such a blank: its heartbeats are then filed elsewhere. */
  lemma BlankEntryHidesContact(id: string, m: Message, now: int)
    requires id != "" && m.kind == "register" && m.agentId == id
    ensures var r := After(map[], [SetState(id, Ready, now), Contact(m, now)]);
      r[id].state == Ready && r[id].pid == 0 && "" in r && r[""].pid == m.pid
  {
    var ops := [SetState(id, Ready, now), Contact(m, now)];
    assert ops[..1] == [SetState(id, Ready, now)] && ops[..1][..0] == [];
    assert After(map[], ops[..1]) == Next(map[], SetState(id, Ready, now));
  }

  // ----- no false alarm -----

  /** Whatever the entry says was last heard is no earlier than `t`, if it can be failed at all. */
  ghost predicate HeardSince(agents: Agents, id: string, t: int) {
    id in agents ==> agents[id].pid == 0 || agents[id].lastSeen == 0 || agents[id].lastSeen >= t
  }

  predicate Restores(op: Op, id: string) {
    op.Restore? && op.agent.id == id
  }

  /** Operations stamped no earlier than `t` that put no old control block back in place of `id`'s. */
  ghost predicate NoRestoreSince(ops: seq<Op>, id: string, t: int) {
    forall i :: 0 <= i < |ops| ==> ops[i].now >= t && !Restores(ops[i], id)
  }

  lemma StepKeepsHeard(agents: Agents, op: Op, id: string, t: int)
    requires HeardSince(agents, id, t) && op.now >= t && !Restores(op, id)
    ensures HeardSince(Next(agents, op), id, t)
  {
  }

  lemma {:induction false} HeardInEveryRun(agents: Agents, ops: seq<Op>, id: string, t: int)
    requires HeardSince(agents, id, t) && NoRestoreSince(ops, id, t)
    ensures HeardSince(After(agents, ops), id, t)
  {
    if ops != [] {
      var n := |ops| - 1;
      assert NoRestoreSince(ops[..n], id, t);
      HeardInEveryRun(agents, ops[..n], id, t);
      StepKeepsHeard(After(agents, ops[..n]), ops[n], id, t);
    }
  }

  /** In every run a tick spares an agent heard from at most `timeout` before it. */
  lemma RecentContactIsSpared(agents: Agents, m: Message, t: int, since: seq<Op>, now: int, timeout: int)
    requires Keyed(agents) && IsContact(m) && NoRestoreSince(since, m.agentId, t) && now - t <= timeout
    ensures var r := After(MessageStep(agents, m, t), since);
      m.agentId in r ==> TickStep(r, now, timeout)[m.agentId] == r[m.agentId]
  {
    ContactRecordedIffOwnEntry(agents, m, t);
    HeardInEveryRun(MessageStep(agents, m, t), since, m.agentId, t);
  }

  // ----- no missed failure -----

  /** The operation neither hears from `id` nor replaces its entry; it may set its state. */
  predicate NoContact(op: Op, id: string) {
    match op
    case Contact(m, _) => m.agentId != id
    case Create(other, _, _, _) => other != id
    case Restore(a, _) => a.id != id
    case _ => true
  }

  /** Nor does it set its state, but for failing it on a tick. */
  predicate LeavesAlone(op: Op, id: string) {
    NoContact(op, id) && (op.SetState? ==> op.id != id)
  }

  /** The agent has a process and has been silent since `t`. */
  ghost predicate SilentSince(agents: Agents, id: string, t: int) {
    && id in agents && agents[id].pid != 0 && agents[id].lastSeen == t
  }

  lemma {:induction false} SilenceLasts(agents: Agents, ops: seq<Op>, id: string, t: int)
    requires Keyed(agents) && id != "" && SilentSince(agents, id, t)
    requires forall i :: 0 <= i < |ops| ==> NoContact(ops[i], id)
    ensures SilentSince(After(agents, ops), id, t)
  {
    if ops != [] {
      var n := |ops| - 1;
      var before := After(agents, ops[..n]);
      SilenceLasts(agents, ops[..n], id, t);
      KeyedInEveryRun(agents, ops[..n]);
      if ops[n].Contact? && IsContact(ops[n].message) {
        ContactRecordedIffOwnEntry(before, ops[n].message, ops[n].now);
        assert Lookup(Next(before, ops[n]), id) == Lookup(before, id);
      }
    }
  }

  /**
   * In every run a tick more than `timeout` after an agent's last contact leaves it FAILED or KILLED, whatever
   * states were set in between.
   */
  lemma SilentAgentFails(agents: Agents, m: Message, t: int, since: seq<Op>, now: int, timeout: int)
    requires Keyed(agents) && IsContact(m) && m.agentId != ""
    requires m.agentId in agents ==> agents[m.agentId].id == m.agentId
    requires SilentSince(MessageStep(agents, m, t), m.agentId, t) && t != 0 && now - t > timeout
    requires forall i :: 0 <= i < |since| ==> NoContact(since[i], m.agentId)
    ensures var r := After(MessageStep(agents, m, t), since);
      m.agentId in r && TickStep(r, now, timeout)[m.agentId].state in {Failed, Killed}
        && (r[m.agentId].state != Killed ==> TickStep(r, now, timeout)[m.agentId].state == Failed)
  {
    StepKeepsKeyed(agents, Contact(m, t));
    SilenceLasts(MessageStep(agents, m, t), since, m.agentId, t);
  }

  predicate IsHeartbeat(op: Op) {
    op.Contact? && op.message.kind == "heartbeat"
  }

  /** A heartbeat, or an operation that leaves the agent alone, keeps its state, unless it fails it. */
  lemma StepKeepsState(agents: Agents, op: Op, id: string)
    requires Keyed(agents) && id != "" && id in agents && (IsHeartbeat(op) || LeavesAlone(op, id))
    ensures id in Next(agents, op) && Next(agents, op)[id].state in {agents[id].state, Failed}
  {
    if op.Contact? && op.message.agentId != id && IsContact(op.message) {
      ContactRecordedIffOwnEntry(agents, op.message, op.now);
      assert Lookup(Next(agents, op), id) == Lookup(agents, id);
    }
  }

  /** Heartbeats, ticks and attachments alone never bring a failed agent back. */
  lemma {:induction false} FailedStaysFailed(agents: Agents, ops: seq<Op>, id: string)
    requires Keyed(agents) && id != "" && id in agents && agents[id].state == Failed
    requires forall i :: 0 <= i < |ops| ==> IsHeartbeat(ops[i]) || LeavesAlone(ops[i], id)
    ensures id in After(agents, ops) && After(agents, ops)[id].state == Failed
  {
    if ops != [] {
      var n := |ops| - 1;
      var before := After(agents, ops[..n]);
      FailedStaysFailed(agents, ops[..n], id);
      KeyedInEveryRun(agents, ops[..n]);
      StepKeepsState(before, ops[n], id);
    }
  }

  /** What a worker last reported stays its state through any heartbeats, ticks and calls for others, unless a tick fails it. */
  lemma {:induction false} ReportedStateLasts(agents: Agents, m: Message, t: int, since: seq<Op>)
    requires Keyed(agents) && m.kind == "report" && m.status != "" && m.agentId != ""
    requires m.agentId in agents ==> agents[m.agentId].id == m.agentId
    requires forall i :: 0 <= i < |since| ==> IsHeartbeat(since[i]) || LeavesAlone(since[i], m.agentId)
    ensures var r := After(MessageStep(agents, m, t), since);
      m.agentId in r && (StateName(r[m.agentId].state) == m.status || r[m.agentId].state == Failed)
  {
    if since == [] {
      ContactLeaves(agents, m, t);
    } else {
      var n := |since| - 1;
      ReportedStateLasts(agents, m, t, since[..n]);
      StepKeepsKeyed(agents, Contact(m, t));
      KeyedInEveryRun(MessageStep(agents, m, t), since[..n]);
      StepKeepsState(After(MessageStep(agents, m, t), since[..n]), since[n], m.agentId);
    }
  }

  /** A sweep has ticked every agent outside `todo`, and `failed` lists those that went silent, `ids`. */
  ghost predicate Swept(before: Agents, agents: Agents, todo: set<string>, threshold: int, now: int,
                        failed: seq<Avp>, ids: seq<string>)
  {
    && todo <= agents.Keys == before.Keys
    && (forall id :: id in agents ==>
         agents[id] == if id in todo then before[id] else Ticked(before[id], now, now - threshold))
    && Lists(before, todo, threshold, ids)
    && |failed| == |ids|
    && forall i :: 0 <= i < |ids| ==> ids[i] in agents && failed[i] == agents[ids[i]]
  }

  ghost predicate Lists(before: Agents, todo: set<string>, threshold: int, ids: seq<string>) {
    && NoDup(ids)
    && forall id :: id in ids <==> id in before && id !in todo && Silent(before[id], threshold)
  }

  lemma SweepOne(before: Agents, agents: Agents, todo: set<string>, threshold: int, now: int,
                 failed: seq<Avp>, ids: seq<string>, id: string)
    returns (more: seq<string>)
    requires Swept(before, agents, todo, threshold, now, failed, ids) && id in todo
    ensures var a := Ticked(agents[id], now, now - threshold);
      Swept(before, agents[id := a], todo - {id}, threshold, now,
            if Silent(agents[id], threshold) then failed + [a] else failed, more)
  {
    more := if Silent(agents[id], threshold) then ids + [id] else ids;
    assert id !in ids;
    forall i | 0 <= i < |ids|
      ensures ids[i] in agents && ids[i] != id
    {
      assert ids[i] in ids;
    }
    assert Lists(before, todo - {id}, threshold, more);
  }

  // ----- the object -----

  class WorkerRegistry {
    var agents: Agents

    constructor ()
      ensures agents == map[]
    {
      agents := map[];
    }

    method CreateAgent(agentId: string, role: string, taskId: string, now: int) returns (agent: Avp)
      modifies this
      ensures agent == Fresh(agentId, role, taskId, now)
      ensures agents == Next(old(agents), Create(agentId, role, taskId, now))
      ensures agent == Avp(agentId, taskId, role, AgentState.Created, 100, 100, 0, 0, [], [], 0, 0, 0, None, now, now, 0)
      ensures agents == old(agents)[agentId := agent]
    {
      agent := Fresh(agentId, role, taskId, now);
      agents := agents[agentId := agent];
    }

    method HandleMessage(m: Message, now: int)
      modifies this
      ensures agents == MessageStep(old(agents), m, now)
    {
      if m.kind == "register" {
        Register(m, now);
      } else if m.kind == "heartbeat" {
        Heartbeat(m, now);
      } else if m.kind == "report" {
        Report(m, now);
      }
    }

    method Register(m: Message, now: int)
      requires m.kind == "register"
      modifies this
      ensures agents == MessageStep(old(agents), m, now)
    {
      var agent := AgentForMessage(m, now);
      agent := agent.(pid := m.pid);
      agent := agent.(state := Running);
      agent := agent.(lastSeen := now, updatedAt := now);
      agents := agents[agent.id := agent];
    }

    method Heartbeat(m: Message, now: int)
      requires m.kind == "heartbeat"
      modifies this
      ensures agents == MessageStep(old(agents), m, now)
    {
      var agent := AgentForMessage(m, now);
      agent := agent.(lastSeen := now, updatedAt := now);
      if m.pid != 0 {
        agent := agent.(pid := m.pid);
      }
      agents := agents[agent.id := agent];
    }

    method Report(m: Message, now: int)
      requires m.kind == "report"
      modifies this
      ensures agents == MessageStep(old(agents), m, now)
    {
      var agent := AgentForMessage(m, now);
      if m.status != "" {
        agent := agent.(state := StateNamed(m.status));
      }
      agent := agent.(updatedAt := now, lastSeen := now);
      agents := agents[agent.id := agent];
    }

    method AgentForMessage(m: Message, now: int) returns (agent: Avp)
      ensures agent == AgentFor(agents, m, now)
    {
      if m.agentId in agents {
        return agents[m.agentId];
      }
      agent := Fresh(m.agentId, m.role, m.taskId, now);
    }

    method SetAgentState(agentId: string, state: AgentState, now: int)
      modifies this
      ensures agents == Next(old(agents), SetState(agentId, state, now))
    {
      var agent := Lookup(agents, agentId);
      agent := agent.(state := state);
      agent := agent.(updatedAt := now);
      agents := agents[agentId := agent];
    }

    /** The path itself is not kept; attaching it stamps the entry. */
    method SetWorkspace(agentId: string, now: int)
      modifies this
      ensures agents == Next(old(agents), Attach(agentId, now))
    {
      var agent := Lookup(agents, agentId);
      agent := agent.(updatedAt := now);
      agents := agents[agentId := agent];
    }

    method RestoreAgent(agent: Avp, now: int)
      modifies this
      ensures agents == Next(old(agents), Restore(agent, now))
      ensures agents == old(agents)[agent.id := agents[agent.id]]
      ensures var a := agents[agent.id];
        && a == agent.(createdAt := a.createdAt, updatedAt := a.updatedAt, priority := a.priority, weight := a.weight)
        && (if agent.createdAt != 0 then a.createdAt == agent.createdAt else a.createdAt == now)
        && (if agent.updatedAt != 0 then a.updatedAt == agent.updatedAt else a.updatedAt == now)
        && (if agent.priority != 0 then a.priority == agent.priority else a.priority == 100)
        && (if agent.weight != 0 then a.weight == agent.weight else a.weight == 100)
    {
      var a := agent;
      if a.createdAt == 0 {
        a := a.(createdAt := now);
      }
      if a.updatedAt == 0 {
        a := a.(updatedAt := now);
      }
      if a.priority == 0 {
        a := a.(priority := 100);
      }
      if a.weight == 0 {
        a := a.(weight := 100);
      }
      agents := agents[a.id := a];
    }

    /** The agents failed, `ids`, are listed once each as they now are. */
    method MarkHeartbeatLost(now: int, timeout: int) returns (failed: seq<Avp>, ghost ids: seq<string>)
      modifies this
      ensures agents == TickStep(old(agents), now, timeout)
      ensures NoDup(ids) && |ids| == |failed|
      ensures forall id :: id in ids <==> id in old(agents) && Silent(old(agents)[id], now - timeout)
      ensures forall i :: 0 <= i < |ids| ==> ids[i] in agents && failed[i] == agents[ids[i]]
    {
      ghost var before := agents;
      var threshold := now - timeout;
      failed, ids := [], [];
      var todo := agents.Keys;
      while todo != {}
        invariant Swept(before, agents, todo, threshold, now, failed, ids)
        decreases |todo|
      {
        var id :| id in todo;
        ids := SweepOne(before, agents, todo, threshold, now, failed, ids, id);
        todo := todo - {id};
        var lost := MarkIfLost(id, now, timeout);
        if lost {
          failed := failed + [agents[id]];
        }
      }
    }

    method MarkIfLost(id: string, now: int, timeout: int) returns (lost: bool)
      requires id in agents
      modifies this
      ensures agents == old(agents)[id := Ticked(old(agents)[id], now, timeout)]
      ensures lost == Silent(old(agents)[id], now - timeout)
    {
      var agent := agents[id];
      if agent.pid == 0 || agent.lastSeen == 0 || agent.state == Failed || agent.state == Killed {
        return false;
      }
      lost := agent.lastSeen < now - timeout;
      if lost {
        agent := agent.(state := Failed);
        agent := agent.(updatedAt := now);
        agents := agents[id := agent];
      }
    }
  }
}
