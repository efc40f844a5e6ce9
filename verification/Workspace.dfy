/**
 * Per-agent workspaces: a lower tree seeded once, a merged view the tools write to, and an output tree
 * filled by commits. Every loop over files may fail after any entry, and every other file operation may
 * fail; `Io` says which do.
 */
module Workspace {
  import opened Prelude
  import opened FileTrees
  import Names

  /** The directories below one runtime root. `merged` is the plain directory under any mount. */
  datatype AgentDir = AgentDir(lower: Tree, upper: Layer, merged: Tree, output: Tree, mounted: bool)

  /** A directory that is not there. */
  const BLANK := AgentDir(map[], map[], map[], map[], false)

  datatype Mode = OverlayFS | DegradedCopy

  datatype Ws = Ws(agentId: string, dir: string, mode: Mode)

  /** The manager's records and the part of the file system below its root. */
  datatype State = State(
    dirs: map<string, AgentDir>,
    bases: map<string, Tree>,
    workspaces: map<string, Ws>,
    tasks: map<string, string>,
    taskByAgent: map<string, string>)

  const EMPTY_STATE := State(map[], map[], map[], map[], map[])

  datatype Part = Lower | Upper | Merged | Output | Base

  /** How directories are listed, where each removal and each copy stops, and which other steps succeed. */
  datatype Io = Io(
    list: Listing, clear: Part -> Stop, copy: Part -> Stop,
    mkdir: bool, manifest: bool, overlay: bool, mount: bool, unmount: bool)

  /** The directory name of an agent or task. */
  function SafeName(s: string): string {
    Names.Sanitize(s, Names.WORKSPACE_SPECIALS)
  }

  const MANIFEST := "commit_manifest.json"
  const TASKS_DIR := "tasks"

  const DEFAULT_LOWER: Tree := map[
    "README.txt" := File("AORT-R workspace lowerdir fixture\n"),
    "src" := Dir,
    "src/main.txt" := File("base source for isolated agent workspace\n"),
    "config" := Dir,
    "config/runtime.json" := File("{\n  \"runtime\": \"aort-r\",\n  \"workspace\": \"lower\"\n}\n")]

  // ----- views -----

  /** The overlay of an upper layer on a lower tree. */
  function Over(lower: Tree, upper: Layer): Tree {
    map p | p in lower.Keys + upper.Keys && (p in upper ==> upper[p].Put?) ::
      if p in upper then upper[p].node else lower[p]
  }

  /** What a tool sees in the agent's merged directory. */
  function View(d: AgentDir): Tree {
    if d.mounted then Over(d.lower, d.upper) else d.merged
  }

  // ----- operations -----

  function At(s: State, dir: string): AgentDir {
    if dir in s.dirs then s.dirs[dir] else BLANK
  }

  function WithDir(s: State, dir: string, d: AgentDir): State {
    s.(dirs := s.dirs[dir := d])
  }

  /** Removes an agent's directories; a mount point is emptied through the overlay but cannot go. */
  function RemoveDir(d: AgentDir, io: Io): (AgentDir, bool) {
    var covered := if d.mounted then HideEach(d.lower, d.upper, io.list(View(d).Keys), io.clear(Merged)) else d.upper;
    var (lower, l) := Clear(d.lower, io.list, io.clear(Lower));
    var (upper, u) := Clear(covered, io.list, io.clear(Upper));
    var (merged, m) := if d.mounted then (d.merged, false) else Clear(d.merged, io.list, io.clear(Merged));
    var (output, o) := Clear(d.output, io.list, io.clear(Output));
    (AgentDir(lower, upper, merged, output, d.mounted), l && u && m && o)
  }

  /** What a workspace is seeded from: the fixture, or the base snapshot in a directory. */
  datatype Source = Fixture | Snapshot(base: string)

  function SeedFrom(s: State, source: Source): Option<Tree> {
    match source
    case Fixture => Some(DEFAULT_LOWER)
    case Snapshot(base) => if base in s.bases then Some(s.bases[base]) else None
  }

  /** Seeds an empty directory and mounts an overlay on it, or fills a plain copy if that fails. */
  function BuildDir(seed: Option<Tree>, io: Io): (AgentDir, Option<Mode>) {
    if !io.mkdir || seed.None? then (BLANK, None)
    else
      var (lower, seeded) := Copy(Lift(seed.value), map[], io.list, io.copy(Lower));
      var d := BLANK.(lower := lower);
      if !seeded then (d, None)
      else if io.overlay && io.mount then (d.(mounted := true), Some(OverlayFS))
      else
        var (merged, copied) := Copy(Lift(lower), map[], io.list, io.copy(Merged));
        (d.(merged := merged), if copied then Some(DegradedCopy) else None)
  }

  /** Removes what is in the way and builds there. */
  function ReplaceDir(d: AgentDir, seed: Option<Tree>, io: Io): (AgentDir, Option<Mode>) {
    var (rest, removed) := RemoveDir(d, io);
    if removed then BuildDir(seed, io) else (rest, None)
  }

  /** The base snapshots go with the task directory when an agent is filed under that name. */
  function BasesLeft(s: State, dir: string): State {
    if dir == TASKS_DIR then s.(bases := map[]) else s
  }

  /** Builds a workspace from scratch. */
  function CreateStep(s: State, agentId: string, source: Source, io: Io): (State, Result<Ws>) {
    if agentId == "" then (s, Err(IdRequired))
    else
      var dir := SafeName(agentId);
      if dir == "." then (s, Err(IoFailure)) // the runtime root itself is never removed
      else
        var s1 := BasesLeft(s, dir);
        var (d, mode) := ReplaceDir(At(s, dir), SeedFrom(s1, source), io);
        var s2 := WithDir(s1, dir, d);
        if mode.None? then (s2, Err(IoFailure))
        else
          var ws := Ws(agentId, dir, mode.value);
          (s2.(workspaces := s1.workspaces[agentId := ws]), Ok(ws))
  }

  /** The files of a committed tree, as its manifest lists them. */
  function FilesOf(tree: Tree): set<Path> {
    set p | p in tree && tree[p] != Dir
  }

  /** Empties the output and copies the upper layer, or the whole plain copy, into it. */
  function CommitDir(agentId: string, mode: Mode, d: AgentDir, io: Io): (AgentDir, Result<()>) {
    var (emptied, cleared) := Clear(d.output, io.list, io.clear(Output));
    if !cleared || !io.mkdir then (d.(output := emptied), Err(IoFailure))
    else
      var src := if mode == OverlayFS then d.upper else Lift(View(d));
      var (output, copied) := Copy(src, emptied, io.list, io.copy(Output));
      if !copied || !io.manifest || Clashes(output, MANIFEST, Manifest(agentId, FilesOf(output))) then
        (d.(output := output), Err(IoFailure))
      else (d.(output := output[MANIFEST := Manifest(agentId, FilesOf(output))]), Ok(()))
  }

  function CommitStep(s: State, agentId: string, io: Io): (State, Result<()>) {
    if agentId !in s.workspaces then (s, Err(NotFound))
    else
      var ws := s.workspaces[agentId];
      var (d, r) := CommitDir(agentId, ws.mode, At(s, ws.dir), io);
      (WithDir(s, ws.dir, d), r)
  }

  function Unmounted(mode: Mode, d: AgentDir, io: Io): AgentDir {
    if mode == OverlayFS && io.unmount then d.(mounted := false) else d
  }

  /** Empties the plain copy and fills it from the lower tree again. */
  function RefillDir(d: AgentDir, io: Io): (AgentDir, bool) {
    var (emptied, cleared) := Clear(d.merged, io.list, io.clear(Merged));
    if !cleared then (d.(merged := emptied), false)
    else
      var (merged, copied) := Copy(Lift(d.lower), emptied, io.list, io.copy(Merged));
      (d.(merged := merged), copied)
  }

  /** Remounts on an emptied upper layer, or goes over to a plain copy when that fails. */
  function RollbackDir(mode: Mode, d: AgentDir, io: Io): (AgentDir, Mode, Result<()>) {
    if mode == OverlayFS then
      var (upper, cleared) := Clear(d.upper, io.list, io.clear(Upper));
      var d1 := Unmounted(mode, d, io).(upper := upper);
      if !cleared || !io.mkdir then (d1, mode, Err(IoFailure))
      else if io.mount then (d1.(mounted := true), mode, Ok(()))
      else if d1.mounted then // the old mount is still there and cannot be removed
        (d1.(upper := HideEach(d1.lower, upper, io.list(View(d1).Keys), io.clear(Merged))), mode, Err(IoFailure))
      else
        var (d2, ok) := RefillDir(d1, io);
        (d2, if ok then DegradedCopy else mode, if ok then Ok(()) else Err(IoFailure))
    else
      var (d2, ok) := RefillDir(d, io);
      (d2, mode, if ok then Ok(()) else Err(IoFailure))
  }

  function RollbackStep(s: State, agentId: string, io: Io): (State, Result<()>) {
    if agentId !in s.workspaces then (s, Err(NotFound))
    else
      var ws := s.workspaces[agentId];
      var (d, mode, r) := RollbackDir(ws.mode, At(s, ws.dir), io);
      (WithDir(s, ws.dir, d).(workspaces := s.workspaces[agentId := ws.(mode := mode)]), r)
  }

  function DestroyStep(s: State, agentId: string, io: Io): (State, Result<()>) {
    if agentId !in s.workspaces then (s, Err(NotFound))
    else
      var ws := s.workspaces[agentId];
      var (d, removed) := RemoveDir(Unmounted(ws.mode, At(s, ws.dir), io), io);
      if !removed then (WithDir(s, ws.dir, d), Err(IoFailure))
      else
        (s.(dirs := s.dirs - {ws.dir}, workspaces := s.workspaces - {agentId},
            taskByAgent := s.taskByAgent - {agentId}), Ok(()))
  }

  /** A tool changes the agent's merged view: the upper layer under a mount, the plain copy without. */
  function ToolStep(s: State, agentId: string, upper: Layer, merged: Tree): State {
    if agentId !in s.workspaces then s
    else
      var ws := s.workspaces[agentId];
      var d := At(s, ws.dir);
      WithDir(s, ws.dir, if d.mounted then d.(upper := upper) else d.(merged := merged))
  }

  /** Replaces the base snapshot of a task. */
  function SnapshotStep(s: State, taskId: string, files: Tree, io: Io): (State, Result<()>) {
    if taskId == "" then (s, Err(IdRequired))
    else
      var base := SafeName(taskId);
      var (emptied, cleared) := Clear(if base in s.bases then s.bases[base] else map[], io.list, io.clear(Base));
      if !cleared || !io.mkdir then
        (if base in s.bases then s.(bases := s.bases[base := emptied]) else s, Err(IoFailure))
      else
        var (tree, copied) := Copy(Lift(files), emptied, io.list, io.copy(Base));
        var s1 := s.(bases := s.bases[base := tree]);
        if copied then (s1.(tasks := s.tasks[taskId := base]), Ok(())) else (s1, Err(IoFailure))
  }

  /** Creates the agent's workspace on the base snapshot of its task. */
  function PrepareStep(s: State, taskId: string, agentId: string, io: Io): (State, Result<Ws>) {
    if taskId == "" || agentId == "" then (s, Err(IdRequired))
    else if taskId !in s.tasks then (s, Err(NotFound))
    else
      var (s', r) := CreateStep(s, agentId, Snapshot(s.tasks[taskId]), io);
      (if r.Ok? then s'.(taskByAgent := s'.taskByAgent[agentId := taskId]) else s', r)
  }
}
