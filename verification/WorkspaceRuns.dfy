/** Runs over workspaces: agents are isolated, lower trees stay their seeds, and where either needs a condition. */
module WorkspaceRuns {
  import opened Prelude
  import opened FileTrees
  import opened Workspace
  import opened WorkspaceSteps

  datatype Op =
    | Create(agentId: string)
    | Commit(agentId: string)
    | Rollback(agentId: string)
    | Destroy(agentId: string)
    | Tool(agentId: string, upper: Layer, merged: Tree)
    | TakeSnapshot(taskId: string, files: Tree)
    | Prepare(taskId: string, agentId: string)

  function Apply(s: State, op: Op, io: Io): State {
    match op
    case Create(a) => CreateStep(s, a, Fixture, io).0
    case Commit(a) => CommitStep(s, a, io).0
    case Rollback(a) => RollbackStep(s, a, io).0
    case Destroy(a) => DestroyStep(s, a, io).0
    case Tool(a, upper, merged) => ToolStep(s, a, upper, merged)
    case TakeSnapshot(t, files) => SnapshotStep(s, t, files, io).0
    case Prepare(t, a) => PrepareStep(s, t, a, io).0
  }

  predicate Touches(op: Op, a: string) {
    !op.TakeSnapshot? && op.agentId == a
  }

  /** The agents have distinct safe names, none of them that of the task directory. */
  ghost predicate Named(op: Op, agents: set<string>) {
    && (forall a, b :: a in agents && b in agents && SafeName(a) == SafeName(b) ==> a == b)
    && (!op.TakeSnapshot? ==> op.agentId in agents && SafeName(op.agentId) != TASKS_DIR)
  }

  ghost predicate AllOk(s: State, agents: set<string>) {
    s.workspaces.Keys <= agents && forall a :: WsOk(s, a)
  }

  // ----- isolation -----

  /** Only `a`'s record and directories differ. */
  ghost predicate Confined(s: State, s': State, a: string) {
    && (forall b :: b != a ==> (b in s'.workspaces <==> b in s.workspaces))
    && (forall b :: b != a && b in s.workspaces ==> s'.workspaces[b] == s.workspaces[b])
    && (forall d :: d != SafeName(a) ==> At(s', d) == At(s, d))
  }

  /** At most `a`'s directories and record are written. */
  ghost predicate Writes(s: State, s': State, a: string, d: AgentDir) {
    && (s'.dirs == s.dirs || s'.dirs == s.dirs[SafeName(a) := d] || s'.dirs == s.dirs - {SafeName(a)})
    && (s'.workspaces == s.workspaces || s'.workspaces == s.workspaces - {a}
        || (a in s'.workspaces && s'.workspaces == s.workspaces[a := s'.workspaces[a]]))
  }

  lemma WritesConfined(s: State, s': State, a: string, d: AgentDir)
    requires Writes(s, s', a, d)
    ensures Confined(s, s', a)
  {
  }

  lemma BuiltMode(seed: Option<Tree>, io: Io)
    ensures var (d, mode) := BuildDir(seed, io); d.mounted == (mode == Some(OverlayFS))
  {
  }

  lemma RemovalKeepsMount(d: AgentDir, io: Io)
    ensures RemoveDir(d, io).0.mounted == d.mounted
  {
  }

  /** The directories a create leaves behind, and the mode it records, if any. */
  function Created(s: State, a: string, source: Source, io: Io): (AgentDir, Option<Mode>) {
    ReplaceDir(DirOf(s, a), SeedFrom(BasesLeft(s, SafeName(a)), source), io)
  }

  lemma CreateIsCreated(s: State, a: string, source: Source, io: Io)
    requires a != "" && SafeName(a) != "."
    ensures var (s', r) := CreateStep(s, a, source, io); var (d, mode) := Created(s, a, source, io);
      && s'.dirs == s.dirs[SafeName(a) := d]
      && s'.workspaces == (if mode.Some? then s.workspaces[a := Ws(a, SafeName(a), mode.value)] else s.workspaces)
      && (r.Ok? <==> mode.Some?)
  {
  }

  lemma CreateConfined(s: State, a: string, source: Source, io: Io)
    requires WsOk(s, a)
    ensures var s' := CreateStep(s, a, source, io).0; Confined(s, s', a) && WsOk(s', a)
  {
    if a != "" && SafeName(a) != "." {
      var s' := CreateStep(s, a, source, io).0;
      CreateIsCreated(s, a, source, io);
      CreatedMount(s, a, source, io);
      WritesConfined(s, s', a, Created(s, a, source, io).0);
    }
  }

  lemma CreatedMount(s: State, a: string, source: Source, io: Io)
    ensures var (d, mode) := Created(s, a, source, io);
      if mode.Some? then d.mounted == (mode.value == OverlayFS) else d.mounted ==> DirOf(s, a).mounted
  {
    RemovalKeepsMount(DirOf(s, a), io);
    BuiltMode(SeedFrom(BasesLeft(s, SafeName(a)), source), io);
  }

  lemma PreparedByCreate(s: State, t: string, a: string, io: Io)
    requires t != "" && a != "" && t in s.tasks
    ensures var s', s'' := CreateStep(s, a, Snapshot(s.tasks[t]), io).0, Apply(s, Prepare(t, a), io);
      s''.dirs == s'.dirs && s''.workspaces == s'.workspaces
  {
    var (s', r) := CreateStep(s, a, Snapshot(s.tasks[t]), io);
    assert PrepareStep(s, t, a, io).0 == if r.Ok? then s'.(taskByAgent := s'.taskByAgent[a := t]) else s';
  }

  lemma RollbackConfined(s: State, a: string, io: Io)
    requires WsOk(s, a)
    ensures var s' := RollbackStep(s, a, io).0; Confined(s, s', a) && WsOk(s', a)
  {
    if a in s.workspaces {
      RollbackDirRestores(s.workspaces[a].mode, DirOf(s, a), io);
      WritesConfined(s, RollbackStep(s, a, io).0, a, RollbackDir(s.workspaces[a].mode, DirOf(s, a), io).0);
    }
  }

  lemma DestroyConfined(s: State, a: string, io: Io)
    requires WsOk(s, a)
    ensures var s' := DestroyStep(s, a, io).0; Confined(s, s', a) && WsOk(s', a)
  {
    if a in s.workspaces {
      var d := Unmounted(s.workspaces[a].mode, DirOf(s, a), io);
      RemovalKeepsMount(d, io);
      WritesConfined(s, DestroyStep(s, a, io).0, a, RemoveDir(d, io).0);
    }
  }

  lemma CommitConfined(s: State, a: string, io: Io)
    requires WsOk(s, a)
    ensures var s' := CommitStep(s, a, io).0; Confined(s, s', a) && WsOk(s', a)
  {
    if a in s.workspaces { CommitPublishes(s, a, io); }
  }

  /** Whatever fails, an operation stays within its agent's record and directories. */
  lemma ApplyConfined(s: State, op: Op, io: Io, a: string)
    requires WsOk(s, a) && Touches(op, a)
    ensures Confined(s, Apply(s, op, io), a) && WsOk(Apply(s, op, io), a)
  {
    match op
    case Create(_) => CreateConfined(s, a, Fixture, io);
    case Commit(_) => CommitConfined(s, a, io);
    case Rollback(_) => RollbackConfined(s, a, io);
    case Destroy(_) => DestroyConfined(s, a, io);
    case Tool(_, upper, merged) => ToolConfined(s, a, upper, merged);
    case Prepare(t, _) => PrepareConfined(s, t, a, io);
  }

  lemma ToolConfined(s: State, a: string, upper: Layer, merged: Tree)
    requires WsOk(s, a)
    ensures Confined(s, ToolStep(s, a, upper, merged), a) && WsOk(ToolStep(s, a, upper, merged), a)
  {
  }

  lemma KeptFor(s: State, s': State, t: State, a: string)
    requires s'.dirs == t.dirs && s'.workspaces == t.workspaces
    ensures Confined(s, s', a) <==> Confined(s, t, a)
    ensures WsOk(s', a) <==> WsOk(t, a)
  {
  }

  lemma PrepareConfined(s: State, t: string, a: string, io: Io)
    requires WsOk(s, a)
    ensures var s' := Apply(s, Prepare(t, a), io); Confined(s, s', a) && WsOk(s', a)
  {
    if t != "" && a != "" && t in s.tasks {
      PreparedByCreate(s, t, a, io);
      CreateConfined(s, a, Snapshot(s.tasks[t]), io);
      KeptFor(s, Apply(s, Prepare(t, a), io), CreateStep(s, a, Snapshot(s.tasks[t]), io).0, a);
    }
  }

  /** What there is of an agent: its record, if any, and its directories. */
  ghost predicate SameFor(s: State, s': State, b: string) {
    && (b in s'.workspaces <==> b in s.workspaces)
    && (b in s.workspaces ==> s'.workspaces[b] == s.workspaces[b])
    && DirOf(s', b) == DirOf(s, b)
  }

  lemma OthersUntouched(s: State, op: Op, io: Io, agents: set<string>, b: string)
    requires AllOk(s, agents) && Named(op, agents) && b in agents && !Touches(op, b)
    ensures SameFor(s, Apply(s, op, io), b)
  {
    if !op.TakeSnapshot? {
      assert WsOk(s, op.agentId);
      ApplyConfined(s, op, io, op.agentId);
      ConfinedSpares(s, Apply(s, op, io), op.agentId, b);
    }
  }

  lemma ConfinedSpares(s: State, s': State, a: string, b: string)
    requires Confined(s, s', a) && b != a && SafeName(b) != SafeName(a)
    ensures SameFor(s, s', b)
  {
  }

  lemma ApplyKeepsOk(s: State, op: Op, io: Io, agents: set<string>)
    requires AllOk(s, agents) && Named(op, agents)
    ensures AllOk(Apply(s, op, io), agents)
  {
    var s' := Apply(s, op, io);
    if !op.TakeSnapshot? {
      assert WsOk(s, op.agentId);
      ApplyConfined(s, op, io, op.agentId);
    }
    forall b
      ensures WsOk(s', b)
    {
      assert WsOk(s, b);
      if b in agents && !Touches(op, b) { OthersUntouched(s, op, io, agents, b); }
    }
  }

  /** A run in which anything may fail at any point. */
  ghost predicate Runs(run: seq<State>, ops: seq<(Op, Io)>, agents: set<string>) {
    && |run| == |ops| + 1 && run[0] == EMPTY_STATE
    && forall i :: 0 <= i < |ops| ==> Named(ops[i].0, agents) && run[i + 1] == Apply(run[i], ops[i].0, ops[i].1)
  }

  lemma {:induction false} OkInEveryRun(run: seq<State>, ops: seq<(Op, Io)>, agents: set<string>, k: nat)
    requires Runs(run, ops, agents) && k <= |ops|
    ensures AllOk(run[k], agents)
  {
    if k > 0 {
      OkInEveryRun(run, ops, agents, k - 1);
      ApplyKeepsOk(run[k - 1], ops[k - 1].0, ops[k - 1].1, agents);
    }
  }

  /** In every run, failures anywhere included, an agent's record and trees change only by its own operations. */
  lemma {:induction false} IsolatedInEveryRun(run: seq<State>, ops: seq<(Op, Io)>, agents: set<string>, i: nat, k: nat, b: string)
    requires Runs(run, ops, agents) && i <= k <= |ops| && b in agents
    requires forall j :: i <= j < k ==> !Touches(ops[j].0, b)
    ensures SameFor(run[i], run[k], b)
  {
    if i < k {
      IsolatedInEveryRun(run, ops, agents, i, k - 1, b);
      OkInEveryRun(run, ops, agents, k - 1);
      OthersUntouched(run[k - 1], ops[k - 1].0, ops[k - 1].1, agents, b);
    }
  }

  // ----- lower trees -----

  /** The operation gets as far as removing the agent's directories to build there. */
  predicate Builds(s: State, op: Op) {
    match op
    case Create(a) => a != "" && SafeName(a) != "."
    case Prepare(t, a) => t != "" && a != "" && t in s.tasks && SafeName(a) != "."
    case _ => false
  }

  function SeedOf(s: State, op: Op): Option<Tree>
    requires Builds(s, op)
  {
    SeedFrom(s, if op.Create? then Fixture else Snapshot(s.tasks[op.taskId]))
  }

  /** The removal succeeds. */
  predicate Cleared(d: AgentDir, io: Io) {
    && !d.mounted
    && io.clear(Lower).None? && io.clear(Upper).None? && io.clear(Merged).None? && io.clear(Output).None?
  }

  /** The operation writes its whole seed to a new lower tree. */
  predicate Reseeds(s: State, op: Op, io: Io) {
    Builds(s, op) && Cleared(DirOf(s, op.agentId), io) && io.mkdir && SeedOf(s, op).Some? && io.copy(Lower).None?
  }

  /** A workspace that is there afterwards has the seed just written, or the lower tree it had. */
  ghost predicate KeepsLower(s: State, op: Op, io: Io, a: string) {
    var s' := Apply(s, op, io);
    a in s'.workspaces ==>
      if Touches(op, a) && Reseeds(s, op, io) then DirOf(s', a).lower == SeedOf(s, op).value
      else a in s.workspaces && DirOf(s', a).lower == DirOf(s, a).lower
  }

  /** An existing workspace loses lower files: its directories are removed, wholly or in part, and not seeded again. */
  predicate Damages(s: State, op: Op, io: Io) {
    if op.Destroy? && op.agentId in s.workspaces then
      var d := DirOf(s, op.agentId);
      d.lower != map[] && !Cleared(Unmounted(s.workspaces[op.agentId].mode, d, io), io)
    else if Builds(s, op) && op.agentId in s.workspaces then
      var d := DirOf(s, op.agentId);
      if !Cleared(d, io) || !io.mkdir || SeedOf(s, op).None? then d.lower != map[]
      else io.copy(Lower).Some? && (d.lower != map[] || SeedOf(s, op) != Some(map[]))
    else false
  }

  lemma RemovalOfDir(d: AgentDir, io: Io)
    ensures var (rest, ok) := RemoveDir(d, io);
      && (ok <==> Cleared(d, io)) && (ok ==> rest == BLANK)
      && rest.lower == Clear(d.lower, io.list, io.clear(Lower)).0
      && (io.clear(Lower).None? || d.lower == map[] ==> rest.lower == map[])
  {
    RemovalEmpties(d.lower, io.list, io.clear(Lower));
    RemovalEmpties(d.upper, io.list, io.clear(Upper));
    RemovalEmpties(d.merged, io.list, io.clear(Merged));
    RemovalEmpties(d.output, io.list, io.clear(Output));
    assert d.lower == map[] ==> Clear(d.lower, io.list, io.clear(Lower)).0 == map[];
  }

  /** What building in a cleared directory makes of the lower tree. */
  lemma LowerBuilt(seed: Option<Tree>, io: Io)
    ensures var (d, mode) := BuildDir(seed, io);
      && (!io.mkdir || seed.None? ==> mode.None? && d.lower == map[])
      && (io.mkdir && seed.Some? && io.copy(Lower).None? ==> d.lower == seed.value)
      && (io.mkdir && seed.Some? && io.copy(Lower).Some? ==>
            mode.None? && d.lower == Copy(Lift(seed.value), map[], io.list, io.copy(Lower)).0
            && (seed.value == map[] ==> d.lower == map[]))
  {
    if seed.Some? {
      CopyOfTree(seed.value, io.list, io.copy(Lower));
      assert seed.value == map[] ==> Copy(Lift(seed.value), map[], io.list, io.copy(Lower)).0 == map[];
    }
  }

  /** A finished build shows its seed and has no output. */
  lemma BuiltShowsSeed(seed: Option<Tree>, io: Io)
    ensures var (d, mode) := BuildDir(seed, io);
      mode.Some? ==> seed.Some? && View(d) == d.lower == seed.value && d.output == map[]
  {
    if seed.Some? {
      CopyOfTree(seed.value, io.list, io.copy(Lower));
      CopyOfTree(seed.value, io.list, io.copy(Merged));
      OverNothing(seed.value);
    }
  }

  /** The lower tree a replacement leaves, case by case. */
  lemma LowerReplaced(d: AgentDir, seed: Option<Tree>, io: Io)
    ensures var d' := ReplaceDir(d, seed, io).0;
      if !Cleared(d, io) then d'.lower == Clear(d.lower, io.list, io.clear(Lower)).0
      else if !io.mkdir || seed.None? then d'.lower == map[]
      else if io.copy(Lower).None? then d'.lower == seed.value
      else d'.lower == Copy(Lift(seed.value), map[], io.list, io.copy(Lower)).0
    ensures !(Cleared(d, io) && io.mkdir && seed.Some? && io.copy(Lower).None?) ==> ReplaceDir(d, seed, io).1.None?
  {
    RemovalOfDir(d, io);
    LowerBuilt(seed, io);
  }

  function SourceOf(s: State, op: Op): Source
    requires Builds(s, op)
  {
    if op.Create? then Fixture else Snapshot(s.tasks[op.taskId])
  }

  /** An operation that builds leaves what a replacement leaves, and records the workspace if that has a mode. */
  lemma BuildApplied(s: State, op: Op, io: Io, a: string)
    requires Builds(s, op) && Touches(op, a) && SafeName(a) != TASKS_DIR
    ensures var s' := Apply(s, op, io); var (d, mode) := ReplaceDir(DirOf(s, a), SeedOf(s, op), io);
      DirOf(s', a) == d && (a in s'.workspaces <==> a in s.workspaces || mode.Some?)
  {
    CreateIsCreated(s, a, SourceOf(s, op), io);
    if op.Prepare? { PreparedByCreate(s, op.taskId, a, io); }
  }

  lemma BuildKeepsLower(s: State, op: Op, io: Io, a: string)
    requires Builds(s, op) && Touches(op, a) && SafeName(a) != TASKS_DIR && !Damages(s, op, io)
    ensures KeepsLower(s, op, io, a)
  {
    BuildApplied(s, op, io, a);
    LowerReplaced(DirOf(s, a), SeedOf(s, op), io);
    RemovalOfDir(DirOf(s, a), io);
    LowerBuilt(SeedOf(s, op), io);
  }

  lemma DestroyKeepsLower(s: State, io: Io, a: string)
    requires WsOk(s, a) && !Damages(s, Destroy(a), io)
    ensures KeepsLower(s, Destroy(a), io, a)
  {
    if a in s.workspaces { RemovalOfDir(Unmounted(s.workspaces[a].mode, DirOf(s, a), io), io); }
  }

  lemma PlainOpKeepsLower(s: State, op: Op, io: Io, a: string)
    requires WsOk(s, a) && Touches(op, a) && !op.Destroy? && !Builds(s, op)
    ensures KeepsLower(s, op, io, a)
  {
    if a in s.workspaces {
      match op
      case Commit(_) => CommitPublishes(s, a, io);
      case Rollback(_) => RollbackRestores(s, a, io);
      case Tool(_, upper, merged) => ToolKeepsLower(s, a, upper, merged);
      case _ =>
    }
  }

  lemma ToolKeepsLower(s: State, a: string, upper: Layer, merged: Tree)
    requires WsOk(s, a) && a in s.workspaces
    ensures var s' := ToolStep(s, a, upper, merged);
      DirOf(s', a).lower == DirOf(s, a).lower && s'.workspaces == s.workspaces
  {
  }

  lemma OwnOpKeepsLower(s: State, op: Op, io: Io, a: string)
    requires WsOk(s, a) && Touches(op, a) && SafeName(a) != TASKS_DIR && !Damages(s, op, io)
    ensures KeepsLower(s, op, io, a)
  {
    if Builds(s, op) {
      BuildKeepsLower(s, op, io, a);
    } else if op.Destroy? {
      DestroyKeepsLower(s, io, a);
    } else {
      PlainOpKeepsLower(s, op, io, a);
    }
  }

  /** The same steps fail, but the loops may list and stop anywhere. */
  ghost predicate SameFailures(io: Io, io': Io) {
    && (forall p :: io.clear(p).None? == io'.clear(p).None? && io.copy(p).None? == io'.copy(p).None?)
    && io'.mkdir == io.mkdir && io'.manifest == io.manifest
    && io'.overlay == io.overlay && io'.mount == io.mount && io'.unmount == io.unmount
  }

  /** Failing loops stop after the first entry, a failing copy of the seed before it unless `late`. */
  function StopEarly(io: Io, late: bool): Io {
    io.(clear := p => if io.clear(p).None? then None else Some(1),
        copy := p => if io.copy(p).None? then None else Some(if late then 1 else 0))
  }

  lemma StopsTheSame(io: Io, late: bool)
    ensures SameFailures(io, StopEarly(io, late))
  {
  }

  lemma FirstEntryGone<T>(m: map<Path, T>, list: Listing)
    requires m != map[]
    ensures Clear(m, list, Some(1)).0 != m
  {
    RemovalEmpties(m, list, Some(1));
    var order := list(m.Keys);
    assert Lists(order, m.Keys);
    var p :| p in m;
    assert p in order;
    assert order[0] in order[..1] && order[0] in m;
  }

  lemma FirstEntryCopied(seed: Tree, list: Listing)
    requires seed != map[]
    ensures Copy(Lift(seed), map[], list, Some(1)).0 != map[]
    ensures Copy(Lift(seed), map[], list, Some(0)).0 == map[]
  {
    var src := Lift(seed);
    var order := list(src.Keys);
    assert Lists(order, src.Keys);
    var n := CopyLaysPrefix(src, map[], order, Some(1));
    var p :| p in seed;
    assert p in src && p in order;
    assert order[0] in order && src[order[0]].Put?;
    assert n == 1;
    assert order[0] in order[..1] && order[0] in Laid(map[], src, order[..1]);
  }

  lemma DamageShows(s: State, op: Op, io: Io, a: string)
    requires WsOk(s, a) && a in s.workspaces && Touches(op, a) && SafeName(a) != TASKS_DIR && Damages(s, op, io)
    ensures !KeepsLower(s, op, StopEarly(io, DirOf(s, a).lower == map[]), a)
  {
    var d := DirOf(s, a);
    var io' := StopEarly(io, d.lower == map[]);
    if op.Destroy? {
      FirstEntryGone(d.lower, io.list);
      RemovalOfDir(Unmounted(s.workspaces[a].mode, d, io'), io');
    } else {
      BuildApplied(s, op, io', a);
      FailedBuildShows(d, SeedOf(s, op), io);
    }
  }

  lemma FailedBuildShows(d: AgentDir, seed: Option<Tree>, io: Io)
    requires if !Cleared(d, io) || !io.mkdir || seed.None? then d.lower != map[]
             else io.copy(Lower).Some? && (d.lower != map[] || seed != Some(map[]))
    ensures ReplaceDir(d, seed, StopEarly(io, d.lower == map[])).0.lower != d.lower
  {
    var io' := StopEarly(io, d.lower == map[]);
    if d.lower != map[] { FirstEntryGone(d.lower, io.list); }
    if seed.Some? && seed.value != map[] { FirstEntryCopied(seed.value, io.list); }
    LowerReplaced(d, seed, io');
    RemovalOfDir(d, io');
    LowerBuilt(seed, io');
  }

  /**
   * The lower tree of an existing workspace is safe from an operation, wherever its failing loops stop, exactly
   * when the operation does not remove the workspace's directories, in whole or in part, without seeding them again.
   */
  lemma LowerSafeIffUndamaging(s: State, op: Op, io: Io, a: string)
    requires WsOk(s, a) && a in s.workspaces && Touches(op, a) && SafeName(a) != TASKS_DIR
    ensures !Damages(s, op, io) <==> forall io': Io :: SameFailures(io, io') ==> KeepsLower(s, op, io', a)
  {
    if Damages(s, op, io) {
      DamageShows(s, op, io, a);
      StopsTheSame(io, DirOf(s, a).lower == map[]);
    } else {
      forall io': Io | SameFailures(io, io')
        ensures KeepsLower(s, op, io', a)
      {
        SameDamage(s, op, io, io');
        OwnOpKeepsLower(s, op, io', a);
      }
    }
  }

  lemma SameDamage(s: State, op: Op, io: Io, io': Io)
    requires SameFailures(io, io')
    ensures Damages(s, op, io') <==> Damages(s, op, io)
  {
  }

  // ----- lower trees over runs -----

  /** None of `a`'s own operations damaged its workspace. */
  ghost predicate Undamaged(run: seq<State>, ops: seq<(Op, Io)>, a: string, k: nat)
    requires |run| == |ops| + 1 && k <= |ops|
  {
    forall i :: 0 <= i < k && Touches(ops[i].0, a) ==> !Damages(run[i], ops[i].0, ops[i].1)
  }

  /** The seed last written to the agent's lower tree. */
  ghost function Seed(run: seq<State>, ops: seq<(Op, Io)>, k: nat, a: string): Tree
    requires k <= |ops| && k < |run|
  {
    if k == 0 then map[]
    else
      var s, (op, io) := run[k - 1], ops[k - 1];
      if Touches(op, a) && Reseeds(s, op, io) then SeedOf(s, op).value else Seed(run, ops, k - 1, a)
  }

  lemma LowerKept(s: State, op: Op, io: Io, agents: set<string>, a: string)
    requires AllOk(s, agents) && Named(op, agents) && a in agents && (Touches(op, a) ==> !Damages(s, op, io))
    ensures KeepsLower(s, op, io, a)
  {
    if Touches(op, a) {
      assert WsOk(s, a);
      OwnOpKeepsLower(s, op, io, a);
    } else {
      OthersUntouched(s, op, io, agents, a);
    }
  }

  /** In every run, other agents' failures included, a workspace that none of its own operations damaged keeps its seed. */
  lemma {:induction false} LowerIsSeedInEveryRun(run: seq<State>, ops: seq<(Op, Io)>, agents: set<string>, k: nat, a: string)
    requires Runs(run, ops, agents) && k <= |ops| && a in run[k].workspaces && Undamaged(run, ops, a, k)
    ensures a in agents && DirOf(run[k], a).lower == Seed(run, ops, k, a)
  {
    OkInEveryRun(run, ops, agents, k);
    if k > 0 {
      OkInEveryRun(run, ops, agents, k - 1);
      LowerKept(run[k - 1], ops[k - 1].0, ops[k - 1].1, agents, a);
      if a in run[k - 1].workspaces {
        LowerIsSeedInEveryRun(run, ops, agents, k - 1, a);
      }
    }
  }

  /** In every such run a successful rollback gives the agent the seed of its workspace back. */
  lemma RollbackRestoresSeed(run: seq<State>, ops: seq<(Op, Io)>, agents: set<string>, k: nat, a: string, io: Io)
    requires Runs(run, ops, agents) && k <= |ops| && Undamaged(run, ops, a, k) && RollbackStep(run[k], a, io).1.Ok?
    ensures View(DirOf(RollbackStep(run[k], a, io).0, a)) == Seed(run, ops, k, a)
  {
    OkInEveryRun(run, ops, agents, k);
    assert WsOk(run[k], a);
    RollbackRestores(run[k], a, io);
    LowerIsSeedInEveryRun(run, ops, agents, k, a);
  }

  // ----- a run that loses work -----

  /** Nothing fails. */
  function Smooth(list: Listing): Io {
    Io(list, _ => None, _ => None, true, true, true, true, true)
  }

  /** A rollback that unmounts, cannot mount again, and cannot copy either. */
  function Stranded(list: Listing): Io {
    Smooth(list).(mount := false, copy := _ => Some(0))
  }

  /** Create, a rollback that strands the record in overlay mode, and a command that writes a file. */
  function LostOps(list: Listing, a: string, p: Path, text: string): seq<(Op, Io)> {
    [(Create(a), Smooth(list)), (Rollback(a), Stranded(list)), (Tool(a, map[], map[p := File(text)]), Smooth(list))]
  }

  /** The view holds the path, a commit reports success, and the output does not hold it. */
  ghost predicate LosesOutput(s: State, list: Listing, a: string, p: Path) {
    var (after, r) := CommitStep(s, a, Smooth(list));
    p in View(DirOf(s, a)) && r.Ok? && p !in DirOf(after, a).output
  }

  lemma LostSteps(run: seq<State>, list: Listing, a: string, p: Path, text: string)
    requires Runs(run, LostOps(list, a, p, text), {a})
    ensures SafeName(a) != TASKS_DIR && Undamaged(run, LostOps(list, a, p, text), a, 3)
    ensures run[1] == Apply(EMPTY_STATE, Create(a), Smooth(list)) && run[2] == Apply(run[1], Rollback(a), Stranded(list))
    ensures run[3] == ToolStep(run[2], a, map[], map[p := File(text)])
  {
    var ops := LostOps(list, a, p, text);
    assert Named(ops[0].0, {a});
    assert run[3] == Apply(run[2], ops[2].0, ops[2].1);
  }

  /** There is such a run; nothing is damaged in it, a commit then reports success, and the file is not in its output. */
  lemma LostOutputRun(list: Listing, a: string, p: Path, text: string) returns (run: seq<State>)
    requires a != "" && SafeName(a) != "." && SafeName(a) != TASKS_DIR && p != MANIFEST
    ensures Runs(run, LostOps(list, a, p, text), {a}) && Undamaged(run, LostOps(list, a, p, text), a, 3)
    ensures LosesOutput(run[3], list, a, p)
  {
    run := RunExists(LostOps(list, a, p, text), {a});
    LostSteps(run, list, a, p, text);
    AfterCreate(run[1], list, a);
    AfterRollback(run[1], run[2], list, a);
    LostOutput(run[2], list, a, p, text);
  }

  /** Every list of operations under distinct safe names has its run. */
  lemma {:induction false} RunExists(ops: seq<(Op, Io)>, agents: set<string>) returns (run: seq<State>)
    requires forall i :: 0 <= i < |ops| ==> Named(ops[i].0, agents)
    ensures Runs(run, ops, agents)
  {
    if ops == [] {
      run := [EMPTY_STATE];
    } else {
      var n := |ops| - 1;
      var front := RunExists(ops[..n], agents);
      run := front + [Apply(front[n], ops[n].0, ops[n].1)];
      RunGrows(front, ops[..n], ops[n], agents);
      assert ops == ops[..n] + [ops[n]];
    }
  }

  lemma RunGrows(run: seq<State>, ops: seq<(Op, Io)>, last: (Op, Io), agents: set<string>)
    requires Runs(run, ops, agents) && Named(last.0, agents)
    ensures Runs(run + [Apply(run[|ops|], last.0, last.1)], ops + [last], agents)
  {
  }

  lemma LostOutput(s2: State, list: Listing, a: string, p: Path, text: string)
    requires a in s2.workspaces && s2.workspaces[a] == Ws(a, SafeName(a), OverlayFS) && p != MANIFEST
    requires !DirOf(s2, a).mounted && DirOf(s2, a).upper == map[]
    ensures LosesOutput(ToolStep(s2, a, map[], map[p := File(text)]), list, a, p)
  {
    var s3 := ToolStep(s2, a, map[], map[p := File(text)]);
    assert DirOf(s3, a) == DirOf(s2, a).(merged := map[p := File(text)]) && s3.workspaces == s2.workspaces;
    CommitPublishes(s3, a, Smooth(list));
  }

  lemma AfterCreate(s1: State, list: Listing, a: string)
    requires a != "" && SafeName(a) != "." && SafeName(a) != TASKS_DIR && s1 == Apply(EMPTY_STATE, Create(a), Smooth(list))
    ensures s1.workspaces == map[a := Ws(a, SafeName(a), OverlayFS)]
    ensures DirOf(s1, a) == BLANK.(lower := DEFAULT_LOWER, mounted := true)
  {
    CreateIsCreated(EMPTY_STATE, a, Fixture, Smooth(list));
    RemovalOfDir(BLANK, Smooth(list));
    FreshOverlay(DEFAULT_LOWER, list);
  }

  lemma AfterRollback(s1: State, s2: State, list: Listing, a: string)
    requires s1.workspaces == map[a := Ws(a, SafeName(a), OverlayFS)] && s2 == Apply(s1, Rollback(a), Stranded(list))
    requires DirOf(s1, a) == BLANK.(lower := DEFAULT_LOWER, mounted := true)
    ensures a in s2.workspaces && s2.workspaces[a] == Ws(a, SafeName(a), OverlayFS)
    ensures DirOf(s2, a) == BLANK.(lower := DEFAULT_LOWER)
  {
    StrandedRollback(DirOf(s1, a), list);
  }

  lemma FreshOverlay(seed: Tree, list: Listing)
    ensures BuildDir(Some(seed), Smooth(list)) == (BLANK.(lower := seed, mounted := true), Some(OverlayFS))
  {
    CopyOfTree(seed, list, None);
  }

  lemma StrandedRollback(d: AgentDir, list: Listing)
    requires d.upper == map[] && d.merged == map[]
    ensures RollbackDir(OverlayFS, d, Stranded(list)) == (d.(mounted := false), OverlayFS, Err(IoFailure))
  {
    RemovalEmpties(d.upper, list, None);
    RemovalEmpties(d.merged, list, None);
    RefillRestores(d.(mounted := false), Stranded(list));
    assert Lists(list(Lift(d.lower).Keys), Lift(d.lower).Keys);
  }
}
