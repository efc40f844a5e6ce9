/** Base snapshots and the agents prepared from them; what making and destroying a workspace leaves. */
module WorkspaceSnapshots {
  import opened Prelude
  import opened FileTrees
  import opened Workspace
  import opened WorkspaceSteps
  import opened WorkspaceRuns

  /** Two maps differ at most in one key. */
  ghost predicate SameBut<T>(m: map<string, T>, m': map<string, T>, key: string) {
    forall k :: k != key ==> (k in m' <==> k in m) && (k in m ==> m'[k] == m[k])
  }

  /**
   * A snapshot succeeds exactly when it has a task and none of its loops fails; the base of the task then holds the
   * given files and nothing else. In no case does it touch another base, another task or any agent.
   */
  lemma SnapshotTakesFiles(s: State, t: string, files: Tree, io: Io)
    ensures var (s', r) := SnapshotStep(s, t, files, io); var base := SafeName(t);
      && (r.Ok? <==> t != "" && io.clear(Base).None? && io.mkdir && io.copy(Base).None?)
      && (r.Ok? ==> base in s'.bases && s'.bases[base] == files && t in s'.tasks && s'.tasks[t] == base)
      && (r.Err? ==> s'.tasks == s.tasks)
      && SameBut(s.bases, s'.bases, base) && SameBut(s.tasks, s'.tasks, t)
      && s'.dirs == s.dirs && s'.workspaces == s.workspaces && s'.taskByAgent == s.taskByAgent
  {
    var base := SafeName(t);
    var held := if base in s.bases then s.bases[base] else map[];
    RemovalEmpties(held, io.list, io.clear(Base));
    CopyOfTree(files, io.list, io.copy(Base));
    var s' := SnapshotStep(s, t, files, io).0;
    assert s'.bases == s.bases || (base in s'.bases && s'.bases == s.bases[base := s'.bases[base]]);
  }

  /** The task is recorded and its base holds the files. */
  predicate BaseIs(s: State, t: string, files: Tree) {
    t in s.tasks && s.tasks[t] == SafeName(t) && SafeName(t) in s.bases && s.bases[SafeName(t)] == files
  }

  ghost predicate SameBases(s: State, s': State) {
    s'.bases == s.bases && s'.tasks == s.tasks
  }

  lemma CreateKeepsBases(s: State, a: string, source: Source, io: Io)
    requires SafeName(a) != TASKS_DIR
    ensures SameBases(s, CreateStep(s, a, source, io).0)
  {
    var dir := SafeName(a);
    assert BasesLeft(s, dir) == s;
    var s' := CreateStep(s, a, source, io).0;
    assert s' == s || s' == WithDir(s, dir, Created(s, a, source, io).0).(workspaces := s'.workspaces);
  }

  lemma InPlaceKeepsBases(s: State, op: Op, io: Io)
    requires op.Commit? || op.Destroy? || op.Tool?
    ensures SameBases(s, Apply(s, op, io))
  {
  }

  lemma RollbackKeepsBases(s: State, a: string, io: Io)
    ensures SameBases(s, RollbackStep(s, a, io).0)
  {
  }

  lemma OthersKeepBases(s: State, op: Op, io: Io, agents: set<string>)
    requires Named(op, agents) && !op.TakeSnapshot?
    ensures SameBases(s, Apply(s, op, io))
  {
    match op
    case Create(a) => CreateKeepsBases(s, a, Fixture, io);
    case Prepare(t, a) => if t in s.tasks { CreateKeepsBases(s, a, Snapshot(s.tasks[t]), io); }
    case Rollback(a) => RollbackKeepsBases(s, a, io);
    case _ => InPlaceKeepsBases(s, op, io);
  }

  /** Only a snapshot under the same directory name changes a base. */
  lemma BaseKept(s: State, op: Op, io: Io, agents: set<string>, t: string, files: Tree)
    requires Named(op, agents) && BaseIs(s, t, files)
    requires op.TakeSnapshot? ==> SafeName(op.taskId) != SafeName(t)
    ensures BaseIs(Apply(s, op, io), t, files)
  {
    if op.TakeSnapshot? {
      SnapshotTakesFiles(s, op.taskId, op.files, io);
    } else {
      OthersKeepBases(s, op, io, agents);
    }
  }

  /** Step `j` took the snapshot, and no later one of that base came before step `k`. */
  ghost predicate TakenBefore(run: seq<State>, ops: seq<(Op, Io)>, j: nat, k: nat, t: string, files: Tree)
    requires |run| == |ops| + 1
  {
    && j < k <= |ops| && ops[j].0 == TakeSnapshot(t, files) && SnapshotStep(run[j], t, files, ops[j].1).1.Ok?
    && forall i :: j < i < k && ops[i].0.TakeSnapshot? ==> SafeName(ops[i].0.taskId) != SafeName(t)
  }

  /** The base holds the files last taken for it for as long as no other snapshot of it is attempted. */
  lemma {:induction false} BaseInEveryRun(run: seq<State>, ops: seq<(Op, Io)>, agents: set<string>, j: nat, k: nat, t: string, files: Tree)
    requires Runs(run, ops, agents) && TakenBefore(run, ops, j, k, t, files)
    ensures BaseIs(run[k], t, files)
  {
    if k == j + 1 {
      SnapshotTakesFiles(run[j], t, files, ops[j].1);
    } else {
      BaseInEveryRun(run, ops, agents, j, k - 1, t, files);
      BaseKept(run[k - 1], ops[k - 1].0, ops[k - 1].1, agents, t, files);
    }
  }

  // ----- making a workspace -----

  /**
   * A workspace is made exactly when its place could be cleared, its whole seed written, and an overlay mounted or
   * the seed copied; it is then recorded as what it is, shows its seed and has no output.
   */
  lemma MadeIff(s: State, op: Op, io: Io)
    requires Builds(s, op) && SafeName(op.agentId) != TASKS_DIR
    ensures var s', a := Apply(s, op, io), op.agentId;
      var made := Reseeds(s, op, io) && ((io.overlay && io.mount) || io.copy(Merged).None?);
      && (op.Create? ==> (CreateStep(s, a, Fixture, io).1.Ok? <==> made))
      && (op.Prepare? ==> (PrepareStep(s, op.taskId, a, io).1.Ok? <==> made))
      && (made ==>
            && a in s'.workspaces
            && s'.workspaces[a] == Ws(a, SafeName(a), if io.overlay && io.mount then OverlayFS else DegradedCopy)
            && DirOf(s', a).mounted == (io.overlay && io.mount)
            && DirOf(s', a).lower == View(DirOf(s', a)) == SeedOf(s, op).value && DirOf(s', a).output == map[])
  {
    var a, seed := op.agentId, SeedOf(s, op);
    CreateIsCreated(s, a, SourceOf(s, op), io);
    if op.Prepare? { PreparedByCreate(s, op.taskId, a, io); }
    RemovalOfDir(DirOf(s, a), io);
    BuiltShowsSeed(seed, io);
    BuiltIff(seed, io);
  }

  /** With no agent, no task or the runtime root for a directory nothing is built and nothing changes. */
  lemma NothingMade(s: State, t: string, a: string, io: Io)
    ensures a == "" || SafeName(a) == "." ==> CreateStep(s, a, Fixture, io).1.Err? && CreateStep(s, a, Fixture, io).0 == s
    ensures t == "" || a == "" || t !in s.tasks || SafeName(a) == "." ==> PrepareStep(s, t, a, io).1.Err? && PrepareStep(s, t, a, io).0 == s
  {
  }

  /** An agent filed under the name of the task directory costs all tasks their bases, and cannot be prepared from any. */
  lemma TasksAgentLosesBases(s: State, t: string, a: string, io: Io)
    requires a != "" && SafeName(a) == TASKS_DIR
    ensures CreateStep(s, a, Fixture, io).0.bases == map[]
    ensures t != "" && t in s.tasks ==> PrepareStep(s, t, a, io).0.bases == map[] && PrepareStep(s, t, a, io).1.Err?
  {
    CreatedUnderTasks(s, a, Fixture, io);
    if t in s.tasks { CreatedUnderTasks(s, a, Snapshot(s.tasks[t]), io); }
  }

  lemma CreatedUnderTasks(s: State, a: string, source: Source, io: Io)
    requires a != "" && SafeName(a) == TASKS_DIR
    ensures var (s', r) := CreateStep(s, a, source, io); s'.bases == map[] && (source.Snapshot? ==> r.Err?)
  {
    var dir := SafeName(a);
    assert BasesLeft(s, dir) == s.(bases := map[]);
    assert source.Snapshot? ==> SeedFrom(BasesLeft(s, dir), source) == None;
  }

  lemma BuiltIff(seed: Option<Tree>, io: Io)
    ensures var (d, mode) := BuildDir(seed, io);
      && (mode.Some? <==> io.mkdir && seed.Some? && io.copy(Lower).None? && ((io.overlay && io.mount) || io.copy(Merged).None?))
      && (mode.Some? ==> mode.value == (if io.overlay && io.mount then OverlayFS else DegradedCopy) && d.mounted == (io.overlay && io.mount))
  {
    if seed.Some? {
      CopyOfTree(seed.value, io.list, io.copy(Lower));
      CopyOfTree(seed.value, io.list, io.copy(Merged));
    }
  }

  /** In every run an agent prepared from a task gets exactly the files last taken for it. */
  lemma PreparedGetsFiles(run: seq<State>, ops: seq<(Op, Io)>, agents: set<string>, j: nat, k: nat, t: string, files: Tree, a: string)
    requires Runs(run, ops, agents) && k < |ops| && TakenBefore(run, ops, j, k, t, files)
    requires ops[k].0 == Prepare(t, a) && PrepareStep(run[k], t, a, ops[k].1).1.Ok?
    ensures var s, d := run[k + 1], DirOf(run[k + 1], a);
      && d.lower == View(d) == files && d.output == map[]
      && a in s.workspaces && a in s.taskByAgent && s.taskByAgent[a] == t
  {
    BaseInEveryRun(run, ops, agents, j, k, t, files);
    assert Named(ops[k].0, agents);
    MadeIff(run[k], ops[k].0, ops[k].1);
  }

  /** Whether the operation makes or removes the agent's workspace. */
  predicate Remakes(op: Op, a: string) {
    Touches(op, a) && (op.Create? || op.Prepare? || op.Destroy?)
  }

  /** Step `k` prepared the agent from the task, whose files step `j` took; no later step before `n` remade or removed it. */
  ghost predicate PreparedBefore(run: seq<State>, ops: seq<(Op, Io)>, j: nat, k: nat, n: nat, t: string, files: Tree, a: string)
    requires |run| == |ops| + 1
  {
    && k < n <= |ops| && TakenBefore(run, ops, j, k, t, files)
    && ops[k].0 == Prepare(t, a) && PrepareStep(run[k], t, a, ops[k].1).1.Ok?
    && forall i :: k < i < n ==> !Remakes(ops[i].0, a)
  }

  /** Whatever it, other agents and later snapshots do, its lower tree stays those files until it is remade or removed. */
  lemma {:induction false} PreparedKeepsFiles(run: seq<State>, ops: seq<(Op, Io)>, agents: set<string>,
                                              j: nat, k: nat, n: nat, t: string, files: Tree, a: string)
    requires Runs(run, ops, agents) && PreparedBefore(run, ops, j, k, n, t, files, a)
    ensures a in run[n].workspaces && DirOf(run[n], a).lower == files
  {
    if n == k + 1 {
      PreparedGetsFiles(run, ops, agents, j, k, t, files, a);
    } else {
      PreparedKeepsFiles(run, ops, agents, j, k, n - 1, t, files, a);
      OkInEveryRun(run, ops, agents, n - 1);
      OneMoreKeepsFiles(run[n - 1], ops[n - 1].0, ops[n - 1].1, agents, a);
    }
  }

  /** And a rollback that succeeds shows them again. */
  lemma PreparedRollsBackToFiles(run: seq<State>, ops: seq<(Op, Io)>, agents: set<string>,
                                 j: nat, k: nat, n: nat, t: string, files: Tree, a: string, io: Io)
    requires Runs(run, ops, agents) && PreparedBefore(run, ops, j, k, n, t, files, a) && RollbackStep(run[n], a, io).1.Ok?
    ensures View(DirOf(RollbackStep(run[n], a, io).0, a)) == files
  {
    PreparedKeepsFiles(run, ops, agents, j, k, n, t, files, a);
    OkInEveryRun(run, ops, agents, n);
    assert WsOk(run[n], a);
    RollbackRestores(run[n], a, io);
  }

  lemma OneMoreKeepsFiles(s: State, op: Op, io: Io, agents: set<string>, a: string)
    requires AllOk(s, agents) && Named(op, agents) && a in s.workspaces && !Remakes(op, a)
    ensures var s' := Apply(s, op, io); a in s'.workspaces && DirOf(s', a).lower == DirOf(s, a).lower
  {
    assert WsOk(s, a);
    if Touches(op, a) {
      match op
      case Commit(_) => CommitPublishes(s, a, io);
      case Rollback(_) => RollbackRestores(s, a, io);
      case Tool(_, upper, merged) => ToolKeepsLower(s, a, upper, merged);
    } else {
      OthersUntouched(s, op, io, agents, a);
    }
  }

  // ----- removing a workspace -----

  lemma HidesOne(lower: Tree, upper: Layer, p: Path)
    ensures Over(lower, if p in lower then upper[p := Whiteout] else upper - {p}) == Over(lower, upper) - {p}
  {
  }

  lemma ExceptCons<T>(m: map<Path, T>, p: Path, rest: seq<Path>)
    ensures Except(m - {p}, rest) == Except(m, [p] + rest)
  {
  }

  /** Removing entries through a mount hides exactly those the loop got to. */
  lemma {:induction false} HidesPrefix(lower: Tree, upper: Layer, order: seq<Path>, stop: Stop)
    ensures Over(lower, HideEach(lower, upper, order, stop)) == Except(Over(lower, upper), order[..Reached(stop, |order|)])
    decreases |order|
  {
    var n := Reached(stop, |order|);
    if stop == Some(0) || order == [] {
      assert order[..n] == [];
      assert Except(Over(lower, upper), []) == Over(lower, upper);
    } else {
      var p := order[0];
      var upper' := if p in lower then upper[p := Whiteout] else upper - {p};
      HidesPrefix(lower, upper', order[1..], Less(stop));
      HidesOne(lower, upper, p);
      ExceptCons(Over(lower, upper), p, order[1..][..n - 1]);
      assert order[..n] == [p] + order[1..][..n - 1];
    }
  }

  /**
   * A rollback that can neither unmount nor mount again fails and, if nothing else stops it, empties the agent's view,
   * lower tree and all.
   */
  lemma StuckRollbackEmptiesView(s: State, a: string, io: Io)
    requires WsOk(s, a) && a in s.workspaces && s.workspaces[a].mode == OverlayFS && DirOf(s, a).mounted
    requires !io.unmount && !io.mount && io.mkdir && io.clear(Upper).None? && io.clear(Merged).None?
    ensures var (s', r) := RollbackStep(s, a, io); r.Err? && View(DirOf(s', a)) == map[] && DirOf(s', a).lower == DirOf(s, a).lower
  {
    var d := DirOf(s, a);
    RemovalEmpties(d.upper, io.list, io.clear(Upper));
    OverNothing(d.lower);
    var order := io.list(d.lower.Keys);
    assert Lists(order, d.lower.Keys);
    HidesPrefix(d.lower, map[], order, None);
    assert order[..|order|] == order;
    assert Except(d.lower, order) == map[];
  }

  /**
   * A workspace is removed exactly when its mount is gone and every removal runs to the end; its directories, its
   * record and its task are then gone. Otherwise record and task stay. Nothing else changes.
   */
  lemma DestroyedIff(s: State, a: string, io: Io)
    requires WsOk(s, a) && a in s.workspaces
    ensures var (s', r) := DestroyStep(s, a, io); var d := DirOf(s, a);
      && (r.Ok? <==>
            && (d.mounted ==> s.workspaces[a].mode == OverlayFS && io.unmount)
            && io.clear(Lower).None? && io.clear(Upper).None? && io.clear(Merged).None? && io.clear(Output).None?)
      && (r.Ok? ==> SafeName(a) !in s'.dirs && a !in s'.workspaces && a !in s'.taskByAgent)
      && (r.Err? ==> s'.workspaces == s.workspaces && s'.taskByAgent == s.taskByAgent)
      && SameBut(s.dirs, s'.dirs, SafeName(a)) && SameBut(s.workspaces, s'.workspaces, a)
      && SameBut(s.taskByAgent, s'.taskByAgent, a) && s'.bases == s.bases && s'.tasks == s.tasks
  {
    RemovalOfDir(Unmounted(s.workspaces[a].mode, DirOf(s, a), io), io);
  }
}
