/** What one step on a workspace achieves: rollbacks restore, commits publish, and when they do not. */
module WorkspaceSteps {
  import opened FileTrees
  import opened Workspace

  lemma OverNothing(lower: Tree)
    ensures Over(lower, map[]) == lower
  {
  }

  /** The record files the agent under its own safe name; a degraded workspace has nothing mounted. */
  ghost predicate WsOk(s: State, agentId: string) {
    agentId in s.workspaces ==>
      var ws := s.workspaces[agentId];
      && ws.agentId == agentId && ws.dir == SafeName(agentId)
      && (ws.mode == DegradedCopy ==> !At(s, ws.dir).mounted)
  }

  function DirOf(s: State, agentId: string): AgentDir {
    At(s, SafeName(agentId))
  }

  lemma RefillRestores(d: AgentDir, io: Io)
    ensures var (d', ok) := RefillDir(d, io);
      && (ok <==> io.clear(Merged).None? && io.copy(Merged).None?)
      && (ok ==> d'.merged == d.lower) && d' == d.(merged := d'.merged)
  {
    RemovalEmpties(d.merged, io.list, io.clear(Merged));
    CopyOfTree(d.lower, io.list, io.copy(Merged));
  }

  lemma RollbackDirRestores(mode: Mode, d: AgentDir, io: Io)
    requires mode == DegradedCopy ==> !d.mounted
    ensures var (d', mode', r) := RollbackDir(mode, d, io);
      && (r.Ok? ==> View(d') == d.lower)
      && d'.lower == d.lower && d'.output == d.output
      && (mode' == DegradedCopy ==> !d'.mounted) && (r.Ok? && mode' == OverlayFS ==> d'.mounted)
  {
    if mode == OverlayFS {
      RemovalEmpties(d.upper, io.list, io.clear(Upper));
      OverNothing(d.lower);
      RefillRestores(Unmounted(mode, d, io).(upper := Clear(d.upper, io.list, io.clear(Upper)).0), io);
    } else {
      RefillRestores(d, io);
    }
  }

  /**
   * A rollback that reports success restores the lower tree in every mode and records an overlay exactly where one
   * is mounted; none touches lower or output.
   */
  lemma RollbackRestores(s: State, agentId: string, io: Io)
    requires WsOk(s, agentId) && agentId in s.workspaces
    ensures var (s', r) := RollbackStep(s, agentId, io);
      && (r.Ok? ==> View(DirOf(s', agentId)) == DirOf(s, agentId).lower)
      && (r.Ok? ==> (s'.workspaces[agentId].mode == OverlayFS <==> DirOf(s', agentId).mounted))
      && DirOf(s', agentId).lower == DirOf(s, agentId).lower
      && DirOf(s', agentId).output == DirOf(s, agentId).output
  {
    RollbackDirRestores(s.workspaces[agentId].mode, DirOf(s, agentId), io);
  }

  /** When a rollback reports success: all its loops ran to the end, and a lost overlay could be replaced. */
  lemma RollbackSucceedsIff(s: State, agentId: string, io: Io)
    requires WsOk(s, agentId) && agentId in s.workspaces
    ensures var refilled := io.clear(Merged).None? && io.copy(Merged).None?;
      RollbackStep(s, agentId, io).1.Ok? <==>
        if s.workspaces[agentId].mode == DegradedCopy then refilled
        else
          && io.clear(Upper).None? && io.mkdir
          && (io.mount || ((io.unmount || !DirOf(s, agentId).mounted) && refilled))
  {
    var mode, d := s.workspaces[agentId].mode, DirOf(s, agentId);
    RemovalEmpties(d.upper, io.list, io.clear(Upper));
    RefillRestores(d, io);
    RefillRestores(Unmounted(mode, d, io).(upper := Clear(d.upper, io.list, io.clear(Upper)).0), io);
  }

  // ----- commits -----

  /** What a commit publishes: the upper layer of an overlay record, or the plain copy. */
  function Published(mode: Mode, d: AgentDir): Layer {
    if mode == OverlayFS then d.upper else Lift(View(d))
  }

  /** Nothing marked deleted, and the manifest's name not taken by a directory. */
  predicate Publishable(src: Layer) {
    && (forall p :: p in src ==> src[p] != Whiteout)
    && (MANIFEST in src ==> src[MANIFEST] != Put(Dir))
  }

  lemma CommitDirPublishes(agentId: string, mode: Mode, d: AgentDir, io: Io)
    ensures var (d', r) := CommitDir(agentId, mode, d, io); var src := Published(mode, d);
      && (r.Ok? <==> io.clear(Output).None? && io.mkdir && io.copy(Output).None? && io.manifest && Publishable(src))
      && (r.Ok? ==> forall p :: p != MANIFEST ==>
            (p in d'.output <==> p in src && src[p].Put?) && (p in d'.output ==> src[p] == Put(d'.output[p])))
      && d' == d.(output := d'.output)
  {
    var src := Published(mode, d);
    RemovalEmpties(d.output, io.list, io.clear(Output));
    CopyOverlays(src, map[], io.list, io.copy(Output));
    assert AllCopyable(src, map[]) <==> forall p :: p in src ==> src[p] != Whiteout;
  }

  /**
   * A commit changes only the output. It succeeds exactly when nothing fails and nothing is marked deleted,
   * and then the output is the upper layer of an overlay record, or the plain copy, beside the manifest.
   */
  lemma CommitPublishes(s: State, agentId: string, io: Io)
    requires WsOk(s, agentId) && agentId in s.workspaces
    ensures var (s', r) := CommitStep(s, agentId, io); var d, d' := DirOf(s, agentId), DirOf(s', agentId);
      var src := Published(s.workspaces[agentId].mode, d);
      && d' == d.(output := d'.output) && s'.workspaces == s.workspaces
      && (r.Ok? <==> io.clear(Output).None? && io.mkdir && io.copy(Output).None? && io.manifest && Publishable(src))
      && (r.Ok? ==> forall p :: p != MANIFEST ==>
            (p in d'.output <==> p in src && src[p].Put?) && (p in d'.output ==> src[p] == Put(d'.output[p])))
  {
    CommitDirPublishes(agentId, s.workspaces[agentId].mode, DirOf(s, agentId), io);
  }

  /** The manifest of a commit names its agent and exactly the files the commit published, no directory among them. */
  lemma ManifestListsFiles(s: State, agentId: string, io: Io)
    requires WsOk(s, agentId) && agentId in s.workspaces && CommitStep(s, agentId, io).1.Ok?
    ensures var output := DirOf(CommitStep(s, agentId, io).0, agentId).output;
      var src := Published(s.workspaces[agentId].mode, DirOf(s, agentId));
      && MANIFEST in output && output[MANIFEST].Manifest? && output[MANIFEST].agent == agentId
      && forall p :: p in output[MANIFEST].files <==> p in src && src[p].Put? && !src[p].node.Dir?
  {
    var d := DirOf(s, agentId);
    RemovalEmpties(d.output, io.list, io.clear(Output));
    CopyOverlays(Published(s.workspaces[agentId].mode, d), map[], io.list, io.copy(Output));
  }

  /** Laying the output over the lower tree, manifest aside, gives back every file of the view. */
  ghost predicate GivesBack(view: Tree, lower: Tree, output: Tree) {
    forall p :: p in view && p != MANIFEST ==>
      if p in output then output[p] == view[p] else p in lower && lower[p] == view[p]
  }

  /** It brings back nothing the view does not have. */
  ghost predicate BringsNothingBack(view: Tree, lower: Tree, output: Tree) {
    forall p :: (p in lower || p in output) && p != MANIFEST ==> p in view
  }

  /**
   * While an overlay record has its mount, committed output over lower gives back every file of the view.
   * It brings deleted files back exactly where a directory above them was deleted or replaced: a deletion
   * marked by itself makes the commit fail.
   */
  lemma CommittedOutputGivesBack(s: State, agentId: string, io: Io)
    requires WsOk(s, agentId) && agentId in s.workspaces && CommitStep(s, agentId, io).1.Ok?
    requires s.workspaces[agentId].mode == OverlayFS ==> DirOf(s, agentId).mounted
    ensures var d, output := DirOf(s, agentId), DirOf(CommitStep(s, agentId, io).0, agentId).output;
      && GivesBack(View(d), d.lower, output)
      && (BringsNothingBack(View(d), d.lower, output) <==>
            forall p :: p in d.lower && p != MANIFEST ==>
              if d.mounted then p !in d.upper || d.upper[p] != Hidden else p in d.merged)
  {
    CommitPublishes(s, agentId, io);
  }

  /** No step of a commit fails by itself. */
  predicate CommitRuns(io: Io) {
    io.clear(Output).None? && io.mkdir && io.copy(Output).None? && io.manifest
  }

  /** Whatever a command writes, a commit that reports success publishes it. */
  ghost predicate KeepsWork(s: State, agentId: string, io: Io) {
    forall upper: Layer, merged: Tree :: KeepsThis(s, agentId, io, upper, merged)
  }

  ghost predicate KeepsThis(s: State, agentId: string, io: Io, upper: Layer, merged: Tree) {
    var before := ToolStep(s, agentId, upper, merged);
    var (after, r) := CommitStep(before, agentId, io);
    r.Ok? ==> GivesBack(View(DirOf(before, agentId)), DirOf(before, agentId).lower, DirOf(after, agentId).output)
  }

  /**
   * An overlay record whose mount is gone loses work: a command writes to the plain directory, and the commit
   * publishes the stale upper layer. It keeps all work exactly while mounted, or while that layer cannot be copied.
   */
  lemma CommitKeepsWorkIffMounted(s: State, agentId: string, io: Io)
    requires WsOk(s, agentId) && agentId in s.workspaces && s.workspaces[agentId].mode == OverlayFS && CommitRuns(io)
    ensures KeepsWork(s, agentId, io) <==> DirOf(s, agentId).mounted || !Publishable(DirOf(s, agentId).upper)
  {
    var d := DirOf(s, agentId);
    forall upper: Layer, merged: Tree | d.mounted || !Publishable(d.upper)
      ensures KeepsThis(s, agentId, io, upper, merged)
    {
      var before := ToolStep(s, agentId, upper, merged);
      CommitPublishes(before, agentId, io);
      if CommitStep(before, agentId, io).1.Ok? { CommittedOutputGivesBack(before, agentId, io); }
    }
    if !d.mounted && Publishable(d.upper) {
      var p := NewPath(d.lower.Keys + d.upper.Keys + {MANIFEST});
      var before := ToolStep(s, agentId, map[], map[p := File("")]);
      CommitPublishes(before, agentId, io);
      assert p in View(DirOf(before, agentId));
      assert !KeepsThis(s, agentId, io, map[], map[p := File("")]);
    }
  }
}
