/** The workspace manager: the object whose methods take the steps of `Workspace`, loop by loop. */
module WorkspaceManager {
  import opened Prelude
  import opened FileTrees
  import opened Workspace

  class Manager {
    var dirs: map<string, AgentDir>
    var bases: map<string, Tree>
    var workspaces: map<string, Ws>
    var tasks: map<string, string>
    var taskByAgent: map<string, string>

    ghost function Value(): State
      reads this
    {
      State(dirs, bases, workspaces, tasks, taskByAgent)
    }

    constructor ()
      ensures Value() == EMPTY_STATE
    {
      dirs, bases, workspaces, tasks, taskByAgent := map[], map[], map[], map[], map[];
    }

    method SafeRemoveAll(d: AgentDir, io: Io) returns (rest: AgentDir, ok: bool)
      ensures (rest, ok) == RemoveDir(d, io)
    {
      rest, ok := d, true;
      var done: bool;
      if d.mounted {
        rest, ok := rest.(upper := HideEach(d.lower, d.upper, io.list(View(d).Keys), io.clear(Merged))), false;
      } else {
        var merged;
        merged, ok := RemoveTree(d.merged, io.list, io.clear(Merged));
        rest := rest.(merged := merged);
      }
      var lower;
      lower, done := RemoveTree(rest.lower, io.list, io.clear(Lower));
      rest, ok := rest.(lower := lower), ok && done;
      var upper;
      upper, done := RemoveTree(rest.upper, io.list, io.clear(Upper));
      rest, ok := rest.(upper := upper), ok && done;
      var output;
      output, done := RemoveTree(rest.output, io.list, io.clear(Output));
      rest, ok := rest.(output := output), ok && done;
    }

    method Build(seed: Option<Tree>, io: Io) returns (d: AgentDir, mode: Option<Mode>)
      ensures (d, mode) == BuildDir(seed, io)
    {
      d, mode := BLANK, None;
      if !io.mkdir || seed.None? {
        return;
      }
      var lower, seeded := CopyTree(Lift(seed.value), map[], io.list, io.copy(Lower));
      d := d.(lower := lower);
      if !seeded {
        return;
      }
      if io.overlay && io.mount {
        d, mode := d.(mounted := true), Some(OverlayFS);
        return;
      }
      var merged, copied := CopyTree(Lift(lower), map[], io.list, io.copy(Merged));
      d := d.(merged := merged);
      if copied {
        mode := Some(DegradedCopy);
      }
    }

    method Replace(dir: AgentDir, seed: Option<Tree>, io: Io) returns (d: AgentDir, mode: Option<Mode>)
      ensures (d, mode) == ReplaceDir(dir, seed, io)
    {
      var removed;
      d, removed := SafeRemoveAll(dir, io);
      mode := None;
      if removed {
        d, mode := Build(seed, io);
      }
    }

    method Create(agentId: string, source: Source, io: Io) returns (r: Result<Ws>)
      modifies this
      ensures (Value(), r) == CreateStep(old(Value()), agentId, source, io)
    {
      if agentId == "" {
        return Err(IdRequired);
      }
      var dir := SafeName(agentId);
      if dir == "." {
        return Err(IoFailure);
      }
      if dir == TASKS_DIR {
        bases := map[];
      }
      var seed := FindSeed(source);
      var d, mode := Replace(if dir in dirs then dirs[dir] else BLANK, seed, io);
      dirs := dirs[dir := d];
      if mode.None? {
        return Err(IoFailure);
      }
      var ws := Ws(agentId, dir, mode.value);
      workspaces := workspaces[agentId := ws];
      r := Ok(ws);
    }

    method FindSeed(source: Source) returns (seed: Option<Tree>)
      ensures seed == SeedFrom(Value(), source)
    {
      seed := Some(DEFAULT_LOWER);
      if source.Snapshot? {
        seed := if source.base in bases then Some(bases[source.base]) else None;
      }
    }

    method Commit(agentId: string, io: Io) returns (r: Result<()>)
      modifies this`dirs
      ensures (Value(), r) == CommitStep(old(Value()), agentId, io)
    {
      if agentId !in workspaces {
        return Err(NotFound);
      }
      var ws := workspaces[agentId];
      var d := if ws.dir in dirs then dirs[ws.dir] else BLANK;
      d, r := Publish(agentId, ws.mode, d, io);
      dirs := dirs[ws.dir := d];
    }

    /** The steps of a commit on the workspace's directories. */
    method Publish(agentId: string, mode: Mode, dir: AgentDir, io: Io) returns (d: AgentDir, r: Result<()>)
      ensures (d, r) == CommitDir(agentId, mode, dir, io)
    {
      d, r := dir, Err(IoFailure);
      var output, ok := RemoveTree(d.output, io.list, io.clear(Output));
      d := d.(output := output);
      if !ok || !io.mkdir {
        return;
      }
      var src := Lift(View(d));
      if mode == OverlayFS {
        src := d.upper;
      }
      assert View(d) == View(dir);
      output, ok := CopyTree(src, output, io.list, io.copy(Output));
      d := d.(output := output);
      if !ok {
        return;
      }
      var manifest := Manifest(agentId, FilesOf(output));
      if !io.manifest || Clashes(output, MANIFEST, manifest) {
        return;
      }
      d := d.(output := output[MANIFEST := manifest]);
      r := Ok(());
    }

    method Rollback(agentId: string, io: Io) returns (r: Result<()>)
      modifies this`dirs, this`workspaces
      ensures (Value(), r) == RollbackStep(old(Value()), agentId, io)
    {
      if agentId !in workspaces {
        return Err(NotFound);
      }
      var ws := workspaces[agentId];
      var d := if ws.dir in dirs then dirs[ws.dir] else BLANK;
      d, ws, r := RollbackWorkspace(d, ws, io);
      dirs := dirs[ws.dir := d];
      workspaces := workspaces[agentId := ws];
    }

    /** The steps on the workspace's directories; the record changes only when the overlay is given up. */
    method RollbackWorkspace(dir: AgentDir, ws: Ws, io: Io) returns (d: AgentDir, ws': Ws, r: Result<()>)
      ensures ws' == ws.(mode := ws'.mode) && (d, ws'.mode, r) == RollbackDir(ws.mode, dir, io)
    {
      d, ws', r := dir, ws, Err(IoFailure);
      if ws.mode == OverlayFS {
        if io.unmount {
          d := d.(mounted := false);
        }
        var upper, cleared := RemoveTree(d.upper, io.list, io.clear(Upper));
        d := d.(upper := upper);
        if !cleared || !io.mkdir {
          return;
        }
        if io.mount {
          d, r := d.(mounted := true), Ok(());
          return;
        }
        if d.mounted {
          d := d.(upper := HideEach(d.lower, upper, io.list(View(d).Keys), io.clear(Merged)));
          return;
        }
        var ok;
        d, ok := Refill(d, io);
        if ok {
          ws', r := ws.(mode := DegradedCopy), Ok(());
        }
      } else {
        var ok;
        d, ok := Refill(d, io);
        if ok {
          r := Ok(());
        }
      }
    }

    method Refill(dir: AgentDir, io: Io) returns (d: AgentDir, ok: bool)
      ensures (d, ok) == RefillDir(dir, io)
    {
      var merged;
      merged, ok := RemoveTree(dir.merged, io.list, io.clear(Merged));
      d := dir.(merged := merged);
      if !ok {
        return;
      }
      merged, ok := CopyTree(Lift(d.lower), merged, io.list, io.copy(Merged));
      d := d.(merged := merged);
    }

    method Destroy(agentId: string, io: Io) returns (r: Result<()>)
      modifies this`dirs, this`workspaces, this`taskByAgent
      ensures (Value(), r) == DestroyStep(old(Value()), agentId, io)
    {
      if agentId !in workspaces {
        return Err(NotFound);
      }
      var ws := workspaces[agentId];
      var d := if ws.dir in dirs then dirs[ws.dir] else BLANK;
      if ws.mode == OverlayFS && io.unmount {
        d := d.(mounted := false);
      }
      var rest, removed := SafeRemoveAll(d, io);
      if !removed {
        dirs := dirs[ws.dir := rest];
        return Err(IoFailure);
      }
      dirs := dirs - {ws.dir};
      workspaces := workspaces - {agentId};
      taskByAgent := taskByAgent - {agentId};
      r := Ok(());
    }

    method CreateBaseSnapshot(taskId: string, files: Tree, io: Io) returns (r: Result<()>)
      modifies this`bases, this`tasks
      ensures (Value(), r) == SnapshotStep(old(Value()), taskId, files, io)
    {
      if taskId == "" {
        return Err(IdRequired);
      }
      var base := SafeName(taskId);
      var tree, ok := RemoveTree(if base in bases then bases[base] else map[], io.list, io.clear(Base));
      if !ok || !io.mkdir {
        if base in bases {
          bases := bases[base := tree];
        }
        return Err(IoFailure);
      }
      tree, ok := CopyTree(Lift(files), tree, io.list, io.copy(Base));
      bases := bases[base := tree];
      if !ok {
        return Err(IoFailure);
      }
      tasks := tasks[taskId := base];
      r := Ok(());
    }

    method PrepareAgent(taskId: string, agentId: string, io: Io) returns (r: Result<Ws>)
      modifies this
      ensures (Value(), r) == PrepareStep(old(Value()), taskId, agentId, io)
    {
      if taskId == "" || agentId == "" {
        return Err(IdRequired);
      }
      if taskId !in tasks {
        return Err(NotFound);
      }
      r := Create(agentId, Snapshot(tasks[taskId]), io);
      if r.Ok? {
        taskByAgent := taskByAgent[agentId := taskId];
      }
    }

    /** The effect of a command run in the agent's merged directory. */
    method RunTool(agentId: string, upper: Layer, merged: Tree)
      modifies this`dirs
      ensures Value() == ToolStep(old(Value()), agentId, upper, merged)
    {
      if agentId in workspaces {
        var dir := workspaces[agentId].dir;
        var d := if dir in dirs then dirs[dir] else BLANK;
        if d.mounted {
          d := d.(upper := upper);
        } else {
          d := d.(merged := merged);
        }
        dirs := dirs[dir := d];
      }
    }
  }
}
