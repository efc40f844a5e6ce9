/** A restart: the server reports what the checkpoints hold and puts their agents back in its registry. */
module Recovery {
  import opened Prelude
  import opened Sorting
  import opened AvpModel
  import opened Checkpoint
  import Registry

  /** The report's entries are those of the restored snapshots, one for one, and each is the latest of its task. */
  ghost predicate Reports(files: Files, report: seq<RecoveredTask>, restored: seq<Snapshot>) {
    && |report| == |restored|
    && forall i :: 0 <= i < |report| ==>
         IsLatest(files, report[i].taskId, restored[i]) && report[i] == Summarize(restored[i])
  }

  method RecoverRegistryAgents(registry: Registry.WorkerRegistry, snapshot: Snapshot, now: int)
    modifies registry
    ensures registry.agents == RestoreAgents(old(registry.agents), snapshot.agents, now)
  {
    for i := 0 to |snapshot.agents|
      invariant registry.agents == RestoreAgents(old(registry.agents), snapshot.agents[..i], now)
    {
      var restored := snapshot.agents[i];
      if !Terminal(restored.state) {
        restored := restored.(state := Ready);
      }
      registry.RestoreAgent(restored, now);
      assert snapshot.agents[..i + 1][..i] == snapshot.agents[..i];
    }
    assert snapshot.agents[..|snapshot.agents|] == snapshot.agents;
  }

  method RecoverFromCheckpoints(store: Checkpoint.Store, registry: Registry.WorkerRegistry, now: int)
    returns (report: seq<RecoveredTask>, ghost restored: seq<Snapshot>)
    requires FilesOk(store.files)
    modifies registry
    ensures Sorted(StrLess, TaskIds(report)) && NoDup(TaskIds(report))
    ensures forall t :: t in TaskIds(report) <==> HasTask(store.files, t)
    ensures Reports(store.files, report, restored)
    ensures registry.agents == RestoreTasks(old(registry.agents), restored, now)
  {
    report := store.RecoverAll();
    var snapshots := store.List();
    var latest := LastPerTask(snapshots);
    LatestIsLatest(store.files, snapshots);
    forall i | 0 <= i < |report|
      ensures DescribesLatest(store.files, latest, report[i])
    {
      ReportedIsLatest(store.files, report, latest, i);
    }
    restored := RestoreReported(registry, report, latest, now);
    AllDescribed(store.files, report, latest, restored);
  }

  /** The entry describes the snapshot the map holds for its task, which is the latest on disk. */
  ghost predicate DescribesLatest(files: Files, latest: map<string, Snapshot>, task: RecoveredTask) {
    && task.taskId in latest
    && IsLatest(files, task.taskId, latest[task.taskId]) && task == Summarize(latest[task.taskId])
  }

  ghost predicate FromLatest(report: seq<RecoveredTask>, latest: map<string, Snapshot>, restored: seq<Snapshot>) {
    && |restored| <= |report|
    && forall i :: 0 <= i < |restored| ==> report[i].taskId in latest && restored[i] == latest[report[i].taskId]
  }

  method RestoreReported(registry: Registry.WorkerRegistry, report: seq<RecoveredTask>, latest: map<string, Snapshot>,
                         now: int) returns (ghost restored: seq<Snapshot>)
    requires forall i :: 0 <= i < |report| ==> report[i].taskId in latest
    modifies registry
    ensures |restored| == |report| && FromLatest(report, latest, restored)
    ensures registry.agents == RestoreTasks(old(registry.agents), restored, now)
  {
    restored := [];
    for i := 0 to |report|
      invariant |restored| == i && FromLatest(report, latest, restored)
      invariant registry.agents == RestoreTasks(old(registry.agents), restored, now)
    {
      var snapshot := latest[report[i].taskId];
      RecoverRegistryAgents(registry, snapshot, now);
      OneMoreTask(old(registry.agents), restored, snapshot, now);
      OneMoreFromLatest(report, latest, restored);
      restored := restored + [snapshot];
    }
  }

  lemma OneMoreFromLatest(report: seq<RecoveredTask>, latest: map<string, Snapshot>, restored: seq<Snapshot>)
    requires FromLatest(report, latest, restored) && |restored| < |report| && report[|restored|].taskId in latest
    ensures FromLatest(report, latest, restored + [latest[report[|restored|].taskId]])
  {
  }

  lemma OneMoreTask(registry: map<string, Avp>, restored: seq<Snapshot>, s: Snapshot, now: int)
    ensures RestoreTasks(registry, restored + [s], now)
         == RestoreAgents(RestoreTasks(registry, restored, now), s.agents, now)
  {
    assert (restored + [s])[..|restored|] == restored;
  }

  lemma AllDescribed(files: Files, report: seq<RecoveredTask>, latest: map<string, Snapshot>, restored: seq<Snapshot>)
    requires forall i :: 0 <= i < |report| ==> DescribesLatest(files, latest, report[i])
    requires |restored| == |report| && FromLatest(report, latest, restored)
    ensures Reports(files, report, restored)
  {
    forall i | 0 <= i < |report|
      ensures IsLatest(files, report[i].taskId, restored[i]) && report[i] == Summarize(restored[i])
    {
      assert DescribesLatest(files, latest, report[i]);
    }
  }

  lemma ReportedIsLatest(files: Files, report: seq<RecoveredTask>, latest: map<string, Snapshot>, i: nat)
    requires FilesOk(files) && i < |report|
    requires forall t :: t in TaskIds(report) <==> HasTask(files, t)
    requires forall j :: 0 <= j < |report| ==> SummarizesLatest(files, report[j])
    requires forall t :: t in latest <==> HasTask(files, t)
    requires forall t :: t in latest ==> IsLatest(files, t, latest[t])
    ensures DescribesLatest(files, latest, report[i])
  {
    var t := report[i].taskId;
    assert TaskIds(report)[i] == t;
    var s :| IsLatest(files, t, s) && report[i] == Summarize(s);
    LatestUnique(files, t, s, latest[t]);
  }

  lemma {:induction false} AllAgentsMember(snapshots: seq<Snapshot>, i: nat, j: nat) returns (k: nat)
    requires i < |snapshots| && j < |snapshots[i].agents|
    ensures k < |AllAgents(snapshots)| && AllAgents(snapshots)[k] == snapshots[i].agents[j]
  {
    var n := |snapshots| - 1;
    if i == n {
      k := |AllAgents(snapshots[..n])| + j;
    } else {
      k := AllAgentsMember(snapshots[..n], i, j);
    }
  }

  // ----- ids that several tasks use -----

  /** No later agent of the list has the same id. */
  ghost predicate LastOfId(agents: seq<Avp>, k: int) {
    0 <= k < |agents| && forall j :: k < j < |agents| ==> agents[j].id != agents[k].id
  }

  lemma {:induction false} LastOfIdExists(agents: seq<Avp>, k: nat) returns (l: nat)
    requires k < |agents|
    ensures k <= l && LastOfId(agents, l) && agents[l].id == agents[k].id
    decreases |agents| - k
  {
    l := k;
    if !LastOfId(agents, k) {
      var j :| k < j < |agents| && agents[j].id == agents[k].id;
      l := LastOfIdExists(agents, j);
    }
  }

  /** The registry ends with the last agent restored under an id, whatever came before. */
  lemma {:induction false} LastOneStays(registry: map<string, Avp>, agents: seq<Avp>, now: int, k: nat)
    requires LastOfId(agents, k)
    ensures var r := RestoreAgents(registry, agents, now);
      agents[k].id in r && r[agents[k].id] == Restored(agents[k], now)
  {
    var n := |agents| - 1;
    if k < n {
      var front := agents[..n];
      assert forall j :: 0 <= j < n ==> front[j] == agents[j];
      LastOneStays(registry, front, now, k);
    }
  }

  /** After a restart the last agent with an id, in task order, is in the registry as its snapshot left it. */
  lemma RestartKeepsLast(registry: map<string, Avp>, restored: seq<Snapshot>, now: int, k: nat)
    requires LastOfId(AllAgents(restored), k)
    ensures var r, a := RestoreTasks(registry, restored, now), AllAgents(restored)[k];
      && a.id in r && r[a.id] == Restored(a, now)
      && r[a.id].state == (if a.state in {Completed, Failed, Killed} then a.state else Ready)
      && r[a.id].vruntime == a.vruntime && r[a.id].pageTable == a.pageTable
      && r[a.id].consumedTokens == a.consumedTokens
  {
    RestoreTasksIsRestoreAll(registry, restored, now);
    LastOneStays(registry, AllAgents(restored), now, k);
  }

  /** Agents that share an id are all final or all unfinished. */
  ghost predicate AgreeOnFinal(agents: seq<Avp>) {
    forall g, h :: 0 <= g < |agents| && 0 <= h < |agents| && agents[g].id == agents[h].id ==>
      (Terminal(agents[g].state) <==> Terminal(agents[h].state))
  }

  /** Each agent is READY in the registry exactly when its own snapshot has it unfinished. */
  ghost predicate ReadyAsSaved(registry: map<string, Avp>, agents: seq<Avp>) {
    forall k :: 0 <= k < |agents| ==>
      agents[k].id in registry && (registry[agents[k].id].state == Ready <==> !Terminal(agents[k].state))
  }

  /** After a restart every agent is READY exactly as its snapshot says if and only if agents sharing an id agree. */
  lemma RestartReadyIff(registry: map<string, Avp>, restored: seq<Snapshot>, now: int)
    ensures ReadyAsSaved(RestoreTasks(registry, restored, now), AllAgents(restored)) <==> AgreeOnFinal(AllAgents(restored))
  {
    var all, r := AllAgents(restored), RestoreTasks(registry, restored, now);
    if AgreeOnFinal(all) {
      forall k | 0 <= k < |all|
        ensures all[k].id in r && (r[all[k].id].state == Ready <==> !Terminal(all[k].state))
      {
        var l := LastOfIdExists(all, k);
        RestartKeepsLast(registry, restored, now, l);
      }
    }
  }

  /** A task's report lists as ready exactly the restored agents of its snapshot that are READY. */
  ghost predicate ReportHolds(registry: map<string, Avp>, task: RecoveredTask, s: Snapshot) {
    forall j :: 0 <= j < |s.agents| ==>
      var id := s.agents[j].id; id in registry && (registry[id].state == Ready <==> id in task.readyAgents)
  }

  /** In a snapshot whose ids are distinct, an agent is reported ready exactly when it is unfinished. */
  lemma ReportedReady(s: Snapshot, j: nat)
    requires UniqueIds(s.agents) && j < |s.agents|
    ensures s.agents[j].id in Summarize(s).readyAgents <==> !Terminal(s.agents[j].state)
  {
    ReportLists(s, s.agents[j].id);
    OnlyOneWithId(s.agents);
  }

  /**
   * When the ids of each task are distinct, all reports agree with the registry after a restart if and only if
   * agents of different tasks that share an id are all final or all unfinished.
   */
  lemma RestartMatchesReportIff(files: Files, registry: map<string, Avp>, report: seq<RecoveredTask>,
                                restored: seq<Snapshot>, now: int)
    requires Reports(files, report, restored)
    requires forall i :: 0 <= i < |restored| ==> UniqueIds(restored[i].agents)
    ensures var r := RestoreTasks(registry, restored, now);
      (forall i :: 0 <= i < |restored| ==> ReportHolds(r, report[i], restored[i])) <==> AgreeOnFinal(AllAgents(restored))
  {
    var r, all := RestoreTasks(registry, restored, now), AllAgents(restored);
    RestartReadyIff(registry, restored, now);
    if ReadyAsSaved(r, all) {
      forall i | 0 <= i < |restored|
        ensures ReportHolds(r, report[i], restored[i])
      {
        SavedThenReported(r, report[i], restored, i);
      }
    }
    if forall i :: 0 <= i < |restored| ==> ReportHolds(r, report[i], restored[i]) {
      forall k | 0 <= k < |all|
        ensures all[k].id in r && (r[all[k].id].state == Ready <==> !Terminal(all[k].state))
      {
        var i, j := AllAgentsFrom(restored, k);
        assert ReportHolds(r, report[i], restored[i]) && report[i] == Summarize(restored[i]);
        ReportedReady(restored[i], j);
      }
    }
  }

  lemma SavedThenReported(r: map<string, Avp>, task: RecoveredTask, restored: seq<Snapshot>, i: nat)
    requires i < |restored| && UniqueIds(restored[i].agents) && task == Summarize(restored[i])
    requires ReadyAsSaved(r, AllAgents(restored))
    ensures ReportHolds(r, task, restored[i])
  {
    forall j | 0 <= j < |restored[i].agents|
      ensures var id := restored[i].agents[j].id; id in r && (r[id].state == Ready <==> id in task.readyAgents)
    {
      var k := AllAgentsMember(restored, i, j);
      ReportedReady(restored[i], j);
    }
  }

  lemma {:induction false} AllAgentsFrom(snapshots: seq<Snapshot>, k: nat) returns (i: nat, j: nat)
    requires k < |AllAgents(snapshots)|
    ensures i < |snapshots| && j < |snapshots[i].agents| && snapshots[i].agents[j] == AllAgents(snapshots)[k]
  {
    var n := |snapshots| - 1;
    var front := AllAgents(snapshots[..n]);
    if k < |front| {
      i, j := AllAgentsFrom(snapshots[..n], k);
    } else {
      i, j := n, k - |front|;
    }
  }

  lemma AgentsOfTwo(s: Snapshot, t: Snapshot)
    ensures AllAgents([s, t]) == s.agents + t.agents
  {
    assert [s, t][..1] == [s] && [s][..0] == [];
    assert AllAgents([s]) == [] + s.agents == s.agents;
  }

  /** Two tasks whose agents share an id: the one saved as completed is reported so and restored READY. */
  lemma CollidingIds(registry: map<string, Avp>, done: Snapshot, running: Snapshot, a: Avp, b: Avp, now: int)
    requires done.agents == [a] && running.agents == [b] && a.id == b.id
    requires a.state == Completed && !Terminal(b.state)
    ensures var r := RestoreTasks(registry, [done, running], now);
      && a.id in Summarize(done).completedAgents && a.id !in Summarize(done).readyAgents
      && a.id in r && r[a.id].state == Ready
  {
    AgentsOfTwo(done, running);
    assert AllAgents([done, running]) == [a, b];
    RestartKeepsLast(registry, [done, running], now, 1);
    ReportLists(done, a.id);
    assert done.agents[0] == a;
  }

  /**
   * With ids unique over all tasks, every reported agent is in the registry after a restart with its vruntime and
   * page table, READY exactly when its task's report lists it as ready, and in its final state if it had reached one.
   */
  lemma RestartMatchesReport(files: Files, registry: map<string, Avp>, report: seq<RecoveredTask>,
                             restored: seq<Snapshot>, now: int, i: nat, j: nat)
    requires Reports(files, report, restored) && UniqueIds(AllAgents(restored))
    requires i < |restored| && j < |restored[i].agents|
    ensures var r, a := RestoreTasks(registry, restored, now), restored[i].agents[j];
      && a.id in r
      && (r[a.id].state == Ready <==> a.id in report[i].readyAgents)
      && (r[a.id].state == Completed <==> a.id in report[i].completedAgents)
      && r[a.id].state == (if a.state in {Completed, Failed, Killed} then a.state else Ready)
      && r[a.id].vruntime == a.vruntime && r[a.id].pageTable == a.pageTable
      && r[a.id].consumedTokens == a.consumedTokens
  {
    var all := AllAgents(restored);
    RestoreTasksIsRestoreAll(registry, restored, now);
    RestoredInRegistry(registry, all, now);
    var k := AllAgentsMember(restored, i, j);
    var a := restored[i].agents[j];
    OnlyOneWithId(all);
    ReportLists(restored[i], a.id);
    forall h | 0 <= h < |restored[i].agents| && restored[i].agents[h].id == a.id
      ensures restored[i].agents[h] == a
    {
      var g := AllAgentsMember(restored, i, h);
      assert all[g].id == all[k].id;
    }
  }
}
