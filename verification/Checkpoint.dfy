/** Checkpoint files, the latest snapshot of each task, and what a restart recovers from them. */
module Checkpoint {
  import opened Prelude
  import opened Sorting
  import opened AvpModel
  import Names
  import Registry

  datatype Snapshot = Snapshot(
    taskId: string,
    sequence: int,
    agents: seq<Avp>,
    pageTables: map<string, seq<string>>,
    vruntime: map<string, U64>,
    mode: string,
    createdAt: int)

  /** A file: the directory named after the task and the sequence number the file is named after. */
  type Key = (string, int)

  type Files = map<Key, Snapshot>

  function Dir(taskId: string): string {
    Names.Sanitize(taskId, Names.CHECKPOINT_SPECIALS)
  }

  function KeyOf(s: Snapshot): Key {
    (Dir(s.taskId), s.sequence)
  }

  /** The snapshot as it is written. */
  function Stamped(s: Snapshot, now: int): Snapshot {
    s.(sequence := if s.sequence <= 0 then 1 else s.sequence,
       mode := if s.mode == "" then "runtime-state" else s.mode,
       createdAt := if s.createdAt == 0 then now else s.createdAt)
  }

  function SaveStep(files: Files, s: Snapshot, now: int): (Files, Result<()>) {
    if s.taskId == "" then (files, Err(IdRequired))
    else (files[KeyOf(Stamped(s, now)) := Stamped(s, now)], Ok(()))
  }

  /** By task, then sequence, then creation time. */
  predicate SnapshotLess(a: Snapshot, b: Snapshot) {
    if a.taskId != b.taskId then StrLess(a.taskId, b.taskId)
    else if a.sequence != b.sequence then a.sequence < b.sequence
    else a.createdAt < b.createdAt
  }

  lemma SnapshotLessIsOrder()
    ensures StrictWeakOrder(SnapshotLess)
  {
    forall x: Snapshot, y: Snapshot, z: Snapshot
      ensures !SnapshotLess(x, x)
      ensures SnapshotLess(x, y) && SnapshotLess(y, z) ==> SnapshotLess(x, z)
      ensures !SnapshotLess(x, y) && !SnapshotLess(y, z) ==> !SnapshotLess(x, z)
    {
      StrLessTotal(x.taskId, y.taskId);
      StrLessTotal(y.taskId, z.taskId);
      StrLessTotal(x.taskId, z.taskId);
      if StrLess(x.taskId, y.taskId) && StrLess(y.taskId, z.taskId) { StrLessTransitive(x.taskId, y.taskId, z.taskId); }
      if StrLess(z.taskId, y.taskId) && StrLess(y.taskId, x.taskId) { StrLessTransitive(z.taskId, y.taskId, x.taskId); }
    }
  }

  // ----- the files on disk -----

  /** Every file lies where its own task and sequence put it. */
  ghost predicate FilesOk(files: Files) {
    forall k :: k in files ==> k == KeyOf(files[k]) && files[k].taskId != ""
  }

  lemma SaveKeepsFilesOk(files: Files, s: Snapshot, now: int)
    requires FilesOk(files)
    ensures FilesOk(SaveStep(files, s, now).0)
  {
  }

  ghost predicate HasTask(files: Files, t: string) {
    exists k :: k in files && files[k].taskId == t
  }

  /** `s` is the snapshot of `t` with the highest sequence on disk. */
  ghost predicate IsLatest(files: Files, t: string, s: Snapshot) {
    && KeyOf(s) in files && files[KeyOf(s)] == s && s.taskId == t
    && forall k :: k in files && files[k].taskId == t ==> files[k].sequence <= s.sequence
  }

  lemma LatestUnique(files: Files, t: string, s: Snapshot, r: Snapshot)
    requires FilesOk(files) && IsLatest(files, t, s) && IsLatest(files, t, r)
    ensures s == r
  {
  }

  /** `r` lists the files of the chosen directories, sorted. */
  ghost predicate Listing(files: Files, dirs: set<string>, r: seq<Snapshot>) {
    && Sorted(SnapshotLess, r) && NoDup(r)
    && forall s :: s in r <==> KeyOf(s) in files && files[KeyOf(s)] == s && Dir(s.taskId) in dirs
  }

  ghost function AllDirs(files: Files): set<string> {
    set k | k in files :: k.0
  }

  function LatestByTask(snapshots: seq<Snapshot>): map<string, Snapshot> {
    if snapshots == [] then map[]
    else
      var last := snapshots[|snapshots| - 1];
      var front := LatestByTask(snapshots[..|snapshots| - 1]);
      if last.taskId == "" then front else front[last.taskId := last]
  }

  lemma {:induction false} LatestByTaskHas(snapshots: seq<Snapshot>, i: nat)
    requires i < |snapshots| && snapshots[i].taskId != ""
    ensures snapshots[i].taskId in LatestByTask(snapshots)
  {
    var n := |snapshots| - 1;
    if i < n {
      assert snapshots[..n][i] == snapshots[i];
      LatestByTaskHas(snapshots[..n], i);
    }
  }

  /** The map holds, for each task, its last entry in the list. */
  lemma {:induction false} LatestByTaskIsLast(snapshots: seq<Snapshot>, t: string) returns (i: nat)
    requires t in LatestByTask(snapshots) && t != ""
    ensures i < |snapshots| && snapshots[i] == LatestByTask(snapshots)[t] && snapshots[i].taskId == t
    ensures forall j :: i < j < |snapshots| ==> snapshots[j].taskId != t
  {
    var n := |snapshots| - 1;
    i := n;
    if snapshots[n].taskId != t {
      var front := snapshots[..n];
      i := LatestByTaskIsLast(front, t);
      assert forall j :: 0 <= j < n ==> snapshots[j] == front[j];
    }
  }

  /** In a sorted list the last entry of a task has its highest sequence. */
  lemma ListedLatest(files: Files, dirs: set<string>, r: seq<Snapshot>, t: string)
    requires FilesOk(files) && Listing(files, dirs, r) && Dir(t) in dirs && t != ""
    ensures t in LatestByTask(r) <==> HasTask(files, t)
    ensures t in LatestByTask(r) ==> IsLatest(files, t, LatestByTask(r)[t])
  {
    if HasTask(files, t) {
      var k :| k in files && files[k].taskId == t;
      assert files[k] in r;
      var i :| 0 <= i < |r| && r[i] == files[k];
      LatestByTaskHas(r, i);
    }
    if t in LatestByTask(r) {
      var i := LatestByTaskIsLast(r, t);
      assert r[i] in r;
      LastListedIsLatest(files, dirs, r, t, i);
    }
  }

  lemma LastListedIsLatest(files: Files, dirs: set<string>, r: seq<Snapshot>, t: string, i: nat)
    requires FilesOk(files) && Listing(files, dirs, r) && Dir(t) in dirs
    requires i < |r| && r[i].taskId == t && forall j :: i < j < |r| ==> r[j].taskId != t
    ensures IsLatest(files, t, r[i])
  {
    assert r[i] in r;
    forall k | k in files && files[k].taskId == t
      ensures files[k].sequence <= r[i].sequence
    {
      assert files[k] in r;
      var j :| 0 <= j < |r| && r[j] == files[k];
      assert j <= i;
      assert j < i ==> !SnapshotLess(r[i], r[j]);
    }
  }

  lemma NoneAfterLast(r: seq<Snapshot>, s: Snapshot)
    requires Sorted(SnapshotLess, r) && s in r
    ensures var last := r[|r| - 1];
      !StrLess(last.taskId, s.taskId) && (s.taskId == last.taskId ==> s.sequence <= last.sequence)
  {
    var last := r[|r| - 1];
    var j :| 0 <= j < |r| && r[j] == s;
    StrLessTotal(last.taskId, last.taskId);
    assert !SnapshotLess(last, s);
  }

  /** `LoadLatest` takes the end of the task's directory: the greatest task id filed there. */
  lemma EndOfDirectory(files: Files, t: string, r: seq<Snapshot>)
    requires FilesOk(files) && Listing(files, {Dir(t)}, r) && r != []
    ensures var last := r[|r| - 1];
      && Dir(last.taskId) == Dir(t) && IsLatest(files, last.taskId, last)
      && forall k :: k in files && Dir(files[k].taskId) == Dir(t) ==> !StrLess(last.taskId, files[k].taskId)
  {
    var last := r[|r| - 1];
    assert last in r;
    forall k | k in files && Dir(files[k].taskId) == Dir(t)
      ensures !StrLess(last.taskId, files[k].taskId)
      ensures files[k].taskId == last.taskId ==> files[k].sequence <= last.sequence
    {
      assert files[k] in r;
      NoneAfterLast(r, files[k]);
    }
  }

  /** Whether another task filed in `t`'s directory comes after it. */
  ghost predicate Overshadowed(files: Files, t: string) {
    exists k :: k in files && Dir(files[k].taskId) == Dir(t) && StrLess(t, files[k].taskId)
  }

  /** What `LoadLatest` makes of a listing of the task's directory. */
  function Loaded(list: seq<Snapshot>): Result<Snapshot> {
    if list == [] then Err(NotFound) else Ok(list[|list| - 1])
  }

  /** The task's latest snapshot if it has one, and otherwise none. */
  ghost predicate LoadsRight(files: Files, t: string, r: Result<Snapshot>) {
    if HasTask(files, t) then r.Ok? && IsLatest(files, t, r.value) else r == Err(NotFound)
  }

  /** The directory holds a file of another task that comes first to `LoadLatest`. */
  ghost predicate Crowded(files: Files, t: string) {
    if HasTask(files, t) then Overshadowed(files, t) else exists k :: k in files && k.0 == Dir(t)
  }

  /**
   * `LoadLatest(t)` is right exactly when no greater task id shares its directory, or, for a task without a file,
   * when the directory is empty.
   */
  lemma LoadLatestIffNotCrowded(files: Files, t: string, list: seq<Snapshot>)
    requires FilesOk(files) && t != "" && Listing(files, {Dir(t)}, list)
    ensures LoadsRight(files, t, Loaded(list)) <==> !Crowded(files, t)
  {
    if HasTask(files, t) {
      var k :| k in files && files[k].taskId == t;
      assert files[k] in list;
      EndOfDirectory(files, t, list);
      var last := list[|list| - 1];
      StrLessTotal(t, last.taskId);
      assert last in list;
      if Overshadowed(files, t) { StrLessTotal(t, t); }
    } else if list == [] {
      forall k | k in files
        ensures k.0 != Dir(t)
      {
        assert files[k] !in list;
      }
    } else {
      assert list[0] in list;
    }
  }

  /** Where it is right it agrees with the map over the listing of all files. */
  lemma LoadsAsListed(files: Files, t: string, list: seq<Snapshot>, all: seq<Snapshot>)
    requires FilesOk(files) && t != "" && Listing(files, {Dir(t)}, list) && Listing(files, AllDirs(files), all)
    requires !Crowded(files, t)
    ensures Loaded(list) == if t in LatestByTask(all) then Ok(LatestByTask(all)[t]) else Err(NotFound)
  {
    LoadLatestIffNotCrowded(files, t, list);
    LatestIsLatest(files, all);
    if HasTask(files, t) { LatestUnique(files, t, Loaded(list).value, LatestByTask(all)[t]); }
  }

  // ----- save histories -----

  function After(saves: seq<(Snapshot, int)>): Files {
    if saves == [] then map[]
    else SaveStep(After(saves[..|saves| - 1]), saves[|saves| - 1].0, saves[|saves| - 1].1).0
  }

  function Written(saves: seq<(Snapshot, int)>, i: nat): Snapshot
    requires i < |saves|
  {
    Stamped(saves[i].0, saves[i].1)
  }

  /** The sequence a caller asks for. */
  function SequenceOf(s: Snapshot): int {
    if s.sequence <= 0 then 1 else s.sequence
  }

  /** The caller's snapshot, with sequence, mode and time filled in where the caller left them out. */
  ghost predicate AsGiven(s: Snapshot, now: int, r: Snapshot) {
    && r.taskId == s.taskId && r.sequence == SequenceOf(s)
    && r.agents == s.agents && r.pageTables == s.pageTables && r.vruntime == s.vruntime
    && r.mode == (if s.mode != "" then s.mode else "runtime-state")
    && r.createdAt == if s.createdAt != 0 then s.createdAt else now
  }

  /** Two saves of tasks that share a directory, at the same sequence. */
  predicate SameFile(s: Snapshot, r: Snapshot) {
    Dir(s.taskId) == Dir(r.taskId) && SequenceOf(s) == SequenceOf(r)
  }

  /** Save `i` is the last one to its file. */
  ghost predicate LastSave(saves: seq<(Snapshot, int)>, i: int) {
    && 0 <= i < |saves| && saves[i].0.taskId != ""
    && forall j :: i < j < |saves| && saves[j].0.taskId != "" ==> !SameFile(saves[j].0, saves[i].0)
  }

  /** What is on disk under a key is the last save made there. */
  lemma {:induction false} SaveOnDisk(saves: seq<(Snapshot, int)>, k: Key) returns (i: nat)
    requires k in After(saves)
    ensures LastSave(saves, i) && After(saves)[k] == Written(saves, i) && k == KeyOf(Written(saves, i))
  {
    var n := |saves| - 1;
    var front := saves[..n];
    if saves[n].0.taskId != "" && k == KeyOf(Written(saves, n)) {
      i := n;
    } else {
      i := SaveOnDisk(front, k);
      assert Written(saves, i) == Written(front, i);
      forall j | i < j < |saves| && saves[j].0.taskId != ""
        ensures !SameFile(saves[j].0, saves[i].0)
      {
        if j < n { assert saves[j] == front[j]; }
      }
    }
  }

  lemma {:induction false} DiskHasSave(saves: seq<(Snapshot, int)>, i: nat)
    requires i < |saves| && saves[i].0.taskId != ""
    ensures KeyOf(Written(saves, i)) in After(saves)
  {
    if i < |saves| - 1 {
      assert saves[..|saves| - 1][i] == saves[i];
      DiskHasSave(saves[..|saves| - 1], i);
    }
  }

  lemma {:induction false} HistoryFilesOk(saves: seq<(Snapshot, int)>)
    ensures FilesOk(After(saves))
  {
    if saves != [] {
      HistoryFilesOk(saves[..|saves| - 1]);
      SaveKeepsFilesOk(After(saves[..|saves| - 1]), saves[|saves| - 1].0, saves[|saves| - 1].1);
    }
  }

  /** Save `i` is the last one at the highest sequence anyone asked for with `t`. */
  ghost predicate HighestSave(saves: seq<(Snapshot, int)>, t: string, i: int) {
    && 0 <= i < |saves| && saves[i].0.taskId == t
    && forall j :: 0 <= j < |saves| && saves[j].0.taskId == t ==>
         SequenceOf(saves[j].0) <= SequenceOf(saves[i].0) && (j > i ==> SequenceOf(saves[j].0) != SequenceOf(saves[i].0))
  }

  ghost predicate Saved(saves: seq<(Snapshot, int)>, t: string) {
    exists i :: 0 <= i < |saves| && saves[i].0.taskId == t
  }

  lemma {:induction false} HighestSaveExists(saves: seq<(Snapshot, int)>, t: string) returns (i: nat)
    requires Saved(saves, t)
    ensures HighestSave(saves, t, i)
  {
    var n := |saves| - 1;
    var front := saves[..n];
    assert forall j :: 0 <= j < n ==> front[j] == saves[j];
    if !Saved(front, t) {
      i := n;
      assert forall j :: 0 <= j < n ==> saves[j].0.taskId != t by { assert forall j :: 0 <= j < n ==> front[j].0.taskId != t; }
    } else {
      i := HighestSaveExists(front, t);
      if saves[n].0.taskId == t && SequenceOf(saves[n].0) >= SequenceOf(saves[i].0) { i := n; }
    }
  }

  /** What loading promises: the last save at the task's highest sequence, or not found if it was never saved. */
  ghost predicate LoadsLastSave(saves: seq<(Snapshot, int)>, t: string, r: Result<Snapshot>) {
    if Saved(saves, t) then
      r.Ok? && exists i :: HighestSave(saves, t, i) && AsGiven(saves[i].0, saves[i].1, r.value)
    else r == Err(NotFound)
  }

  /** A later save of another task went to the same file. */
  ghost predicate Overwritten(saves: seq<(Snapshot, int)>, i: nat)
    requires i < |saves|
  {
    exists j :: i < j < |saves| && saves[j].0.taskId !in {"", saves[i].0.taskId} && SameFile(saves[j].0, saves[i].0)
  }

  /** Another task saved in `t`'s directory: over `t`'s highest file, or later in the order and still there, or instead of `t`. */
  ghost predicate Disturbed(saves: seq<(Snapshot, int)>, t: string) {
    if Saved(saves, t) then
      || (exists i :: HighestSave(saves, t, i) && Overwritten(saves, i))
      || exists j :: LastSave(saves, j) && Dir(saves[j].0.taskId) == Dir(t) && StrLess(t, saves[j].0.taskId)
    else exists j :: 0 <= j < |saves| && saves[j].0.taskId != "" && Dir(saves[j].0.taskId) == Dir(t)
  }

  lemma HighestUnique(saves: seq<(Snapshot, int)>, t: string, i: nat, j: nat)
    requires HighestSave(saves, t, i) && HighestSave(saves, t, j)
    ensures i == j
  {
  }

  /** A save that nothing overwrote is on disk. */
  lemma LastSaveOnDisk(saves: seq<(Snapshot, int)>, i: nat)
    requires LastSave(saves, i)
    ensures var k := KeyOf(Written(saves, i)); k in After(saves) && After(saves)[k] == Written(saves, i)
  {
    var k := KeyOf(Written(saves, i));
    DiskHasSave(saves, i);
    var j := SaveOnDisk(saves, k);
    assert i == j;
  }

  lemma HighestOnDisk(saves: seq<(Snapshot, int)>, t: string, i: nat)
    requires t != "" && HighestSave(saves, t, i) && !Overwritten(saves, i)
    ensures LastSave(saves, i) && IsLatest(After(saves), t, Written(saves, i))
  {
    forall j | i < j < |saves| && saves[j].0.taskId != ""
      ensures !SameFile(saves[j].0, saves[i].0)
    {
    }
    LastSaveOnDisk(saves, i);
    forall k | k in After(saves) && After(saves)[k].taskId == t
      ensures After(saves)[k].sequence <= Written(saves, i).sequence
    {
      var j := SaveOnDisk(saves, k);
    }
  }

  /** The files of a history crowd a directory exactly through last saves. */
  lemma CrowdedBySaves(saves: seq<(Snapshot, int)>, t: string)
    ensures Overshadowed(After(saves), t) <==>
              exists j :: LastSave(saves, j) && Dir(saves[j].0.taskId) == Dir(t) && StrLess(t, saves[j].0.taskId)
  {
    if Overshadowed(After(saves), t) {
      var k :| k in After(saves) && Dir(After(saves)[k].taskId) == Dir(t) && StrLess(t, After(saves)[k].taskId);
      var j := SaveOnDisk(saves, k);
      assert LastSave(saves, j);
    }
    if j :| LastSave(saves, j) && Dir(saves[j].0.taskId) == Dir(t) && StrLess(t, saves[j].0.taskId) {
      LastSaveOnDisk(saves, j);
    }
  }

  /** A loaded snapshot is what some last save wrote. */
  lemma {:induction false} LoadedIsLastSave(saves: seq<(Snapshot, int)>, t: string, list: seq<Snapshot>) returns (j: nat)
    requires Listing(After(saves), {Dir(t)}, list) && list != []
    ensures LastSave(saves, j) && Loaded(list) == Ok(Written(saves, j)) && Dir(saves[j].0.taskId) == Dir(t)
  {
    var last := list[|list| - 1];
    assert last in list;
    j := SaveOnDisk(saves, KeyOf(last));
  }

  /**
   * For every history of saves, loading a task gives its last save at its highest sequence, or not found if there
   * is none, exactly when no other task disturbed its directory.
   */
  lemma {:induction false} LoadLatestIffUndisturbed(saves: seq<(Snapshot, int)>, t: string, list: seq<Snapshot>)
    requires t != "" && Listing(After(saves), {Dir(t)}, list)
    ensures LoadsLastSave(saves, t, Loaded(list)) <==> !Disturbed(saves, t)
  {
    HistoryFilesOk(saves);
    if Saved(saves, t) {
      var i := HighestSaveExists(saves, t);
      if Overwritten(saves, i) {
        OverwrittenIsLost(saves, t, list, i);
      } else {
        HighestOnDisk(saves, t, i);
        LoadLatestIffNotCrowded(After(saves), t, list);
        CrowdedBySaves(saves, t);
        HighestLoaded(saves, t, list, i);
      }
    } else {
      NeverSaved(saves, t, list);
    }
  }

  lemma {:induction false} OverwrittenIsLost(saves: seq<(Snapshot, int)>, t: string, list: seq<Snapshot>, i: nat)
    requires t != "" && Listing(After(saves), {Dir(t)}, list) && HighestSave(saves, t, i) && Overwritten(saves, i)
    ensures !LoadsLastSave(saves, t, Loaded(list)) && Disturbed(saves, t)
  {
    if list != [] {
      var j := LoadedIsLastSave(saves, t, list);
      forall h | HighestSave(saves, t, h)
        ensures !AsGiven(saves[h].0, saves[h].1, Loaded(list).value)
      {
        HighestUnique(saves, t, i, h);
      }
    }
  }

  lemma {:induction false} HighestLoaded(saves: seq<(Snapshot, int)>, t: string, list: seq<Snapshot>, i: nat)
    requires t != "" && FilesOk(After(saves)) && HighestSave(saves, t, i) && !Overwritten(saves, i)
    requires IsLatest(After(saves), t, Written(saves, i))
    ensures LoadsLastSave(saves, t, Loaded(list)) <==> LoadsRight(After(saves), t, Loaded(list))
    ensures !(exists h :: HighestSave(saves, t, h) && Overwritten(saves, h))
  {
    forall h | HighestSave(saves, t, h)
      ensures h == i
    {
      HighestUnique(saves, t, h, i);
    }
    if Loaded(list).Ok? && IsLatest(After(saves), t, Loaded(list).value) {
      LatestUnique(After(saves), t, Loaded(list).value, Written(saves, i));
    }
  }

  lemma {:induction false} NeverSaved(saves: seq<(Snapshot, int)>, t: string, list: seq<Snapshot>)
    requires t != "" && FilesOk(After(saves)) && Listing(After(saves), {Dir(t)}, list) && !Saved(saves, t)
    ensures list == [] <==> !Disturbed(saves, t)
  {
    if list != [] {
      var j := LoadedIsLastSave(saves, t, list);
    }
    if j :| 0 <= j < |saves| && saves[j].0.taskId != "" && Dir(saves[j].0.taskId) == Dir(t) {
      DiskHasSave(saves, j);
      assert After(saves)[KeyOf(Written(saves, j))] in list;
    }
  }

  /** A task whose directory no other task shares is never disturbed, so loading keeps its promise. */
  lemma {:induction false} LoadLatestIsLastSave(saves: seq<(Snapshot, int)>, t: string, list: seq<Snapshot>)
    requires t != "" && Listing(After(saves), {Dir(t)}, list)
    requires forall i :: 0 <= i < |saves| && Dir(saves[i].0.taskId) == Dir(t) ==> saves[i].0.taskId == t
    ensures LoadsLastSave(saves, t, Loaded(list))
  {
    LoadLatestIffUndisturbed(saves, t, list);
    StrLessTotal(t, t);
  }

  /**
   * For such a task: if save `i` is the last of those with the greatest sequence asked for, where none counts as 1,
   * loading gives what its caller passed.
   */
  lemma {:induction false} LoadsGreatestSequence(saves: seq<(Snapshot, int)>, t: string, list: seq<Snapshot>, i: nat)
    requires t != "" && Listing(After(saves), {Dir(t)}, list)
    requires forall j :: 0 <= j < |saves| && Dir(saves[j].0.taskId) == Dir(t) ==> saves[j].0.taskId == t
    requires i < |saves| && saves[i].0.taskId == t
    requires forall j :: 0 <= j < |saves| && saves[j].0.taskId == t ==>
      var x, y := saves[j].0.sequence, saves[i].0.sequence;
      if y <= 1 then x <= 1 && j <= i else x < y || (x == y && j <= i)
    ensures Loaded(list).Ok?
    ensures var s, r := saves[i].0, Loaded(list).value;
      && r.taskId == t && r.sequence == (if s.sequence <= 0 then 1 else s.sequence)
      && r.agents == s.agents && r.pageTables == s.pageTables && r.vruntime == s.vruntime
      && (s.mode != "" ==> r.mode == s.mode) && (s.createdAt != 0 ==> r.createdAt == s.createdAt)
  {
    LoadLatestIsLastSave(saves, t, list);
    var h :| HighestSave(saves, t, h) && AsGiven(saves[h].0, saves[h].1, Loaded(list).value);
    assert HighestSave(saves, t, i);
    HighestUnique(saves, t, h, i);
  }

  // ----- inputs that collide -----

  lemma SlashBecomesUnderscore()
    ensures Dir("a/b") == Dir("a_b") == "a_b"
  {
    var specials := Names.CHECKPOINT_SPECIALS;
    assert Names.Sanitize("b", specials) == "b";
    assert "/b"[1..] == "b" && "_b"[1..] == "b" && "a/b"[1..] == "/b" && "a_b"[1..] == "_b";
    assert Names.Sanitize("/b", specials) == "_b" && Names.Sanitize("_b", specials) == "_b";
  }

  /** With only task "a/b" ever saved, loading "a_b" returns it. */
  lemma {:induction false} LoadsAnotherTask(s: Snapshot, now: int, list: seq<Snapshot>)
    requires s.taskId == "a/b" && Listing(After([(s, now)]), {Dir("a_b")}, list)
    ensures Loaded(list).Ok? && AsGiven(s, now, Loaded(list).value) && !Saved([(s, now)], "a_b")
  {
    SlashBecomesUnderscore();
    var saves := [(s, now)];
    DiskHasSave(saves, 0);
    assert After(saves)[KeyOf(Written(saves, 0))] in list;
    var j := LoadedIsLastSave(saves, "a_b", list);
  }

  /** A save of "a/b" at the same sequence replaces the only snapshot of "a_b". */
  lemma {:induction false} LosesSnapshot(s: Snapshot, other: Snapshot, now: int, list: seq<Snapshot>)
    requires s.taskId == "a_b" && other.taskId == "a/b" && other.sequence == s.sequence
    requires Listing(After([(s, now), (other, now)]), {Dir("a_b")}, list)
    ensures Loaded(list).Ok? && AsGiven(other, now, Loaded(list).value) && Saved([(s, now), (other, now)], "a_b")
  {
    SlashBecomesUnderscore();
    var saves := [(s, now), (other, now)];
    assert saves[0].0.taskId == "a_b";
    DiskHasSave(saves, 1);
    assert After(saves)[KeyOf(Written(saves, 1))] in list;
    var j := LoadedIsLastSave(saves, "a_b", list);
    assert KeyOf(Written(saves, 0)) == KeyOf(Written(saves, 1));
  }

  // ----- recovery -----

  datatype RecoveredTask = RecoveredTask(
    taskId: string,
    sequence: int,
    status: string,
    agentCount: nat,
    completedAgents: seq<string>,
    readyAgents: seq<string>,
    pageTableRefs: int,
    vruntime: map<string, U64>)

  /** The table lengths of the agents in `among`. */
  ghost function TableSizes(s: Snapshot, among: set<string>): map<string, int> {
    map a | a in s.pageTables && a in among && a != "" :: |s.pageTables[a]|
  }

  function IdsWhere(agents: seq<Avp>, keep: Avp -> bool): seq<string> {
    if agents == [] then []
    else
      IdsWhere(agents[..|agents| - 1], keep)
      + if keep(agents[|agents| - 1]) then [agents[|agents| - 1].id] else []
  }

  predicate Unfinished(a: Avp) {
    !Terminal(a.state)
  }

  predicate Finished(a: Avp) {
    a.state == Completed
  }

  /** What a recovery says about a snapshot. */
  ghost function Summarize(s: Snapshot): RecoveredTask {
    var ready := IdsWhere(s.agents, Unfinished);
    RecoveredTask(s.taskId, s.sequence, if ready == [] then "completed" else "recovered", |s.agents|,
                  StableSort(StrLess, IdsWhere(s.agents, Finished)), StableSort(StrLess, ready),
                  Sum(TableSizes(s, s.pageTables.Keys)), s.vruntime)
  }

  /** The entry describes the latest snapshot of its task. */
  ghost predicate SummarizesLatest(files: Files, task: RecoveredTask) {
    exists s :: IsLatest(files, task.taskId, s) && task == Summarize(s)
  }

  /** The control block the server puts back in its registry. */
  function Restored(a: Avp, now: int): Avp {
    Registry.Filled(a.(state := if Terminal(a.state) then a.state else Ready), now)
  }

  function RestoreAgents(registry: map<string, Avp>, agents: seq<Avp>, now: int): map<string, Avp> {
    if agents == [] then registry
    else
      var last := agents[|agents| - 1];
      RestoreAgents(registry, agents[..|agents| - 1], now)[last.id := Restored(last, now)]
  }

  lemma {:induction false} IdsWhereMembers(agents: seq<Avp>, keep: Avp -> bool, id: string)
    ensures id in IdsWhere(agents, keep) <==> exists i :: 0 <= i < |agents| && keep(agents[i]) && agents[i].id == id
  {
    if agents != [] {
      var n := |agents| - 1;
      IdsWhereMembers(agents[..n], keep, id);
      assert forall i :: 0 <= i < n ==> agents[..n][i] == agents[i];
    }
  }

  /** Every restored agent is in the registry as restored. */
  lemma {:induction false} RestoredInRegistry(registry: map<string, Avp>, agents: seq<Avp>, now: int)
    requires UniqueIds(agents)
    ensures var r := RestoreAgents(registry, agents, now);
      forall i :: 0 <= i < |agents| ==> agents[i].id in r && r[agents[i].id] == Restored(agents[i], now)
  {
    if agents != [] {
      var n := |agents| - 1;
      var front := agents[..n];
      RestoredInRegistry(registry, front, now);
      forall i | 0 <= i < |agents|
        ensures agents[i].id in RestoreAgents(registry, agents, now)
        ensures RestoreAgents(registry, agents, now)[agents[i].id] == Restored(agents[i], now)
      {
        if i < n { assert front[i] == agents[i]; }
      }
    }
  }

  /** An agent that is not restored keeps its entry, or its absence. */
  lemma {:induction false} RestoreLeavesOthers(registry: map<string, Avp>, agents: seq<Avp>, now: int, id: string)
    requires forall i :: 0 <= i < |agents| ==> agents[i].id != id
    ensures var r := RestoreAgents(registry, agents, now);
      (id in r <==> id in registry) && (id in registry ==> r[id] == registry[id])
  {
    if agents != [] {
      RestoreLeavesOthers(registry, agents[..|agents| - 1], now, id);
    }
  }

  /** Sorting the ids changes neither which they are nor that they come in order. */
  lemma SortedIds(ids: seq<string>)
    ensures Sorted(StrLess, StableSort(StrLess, ids)) && (StableSort(StrLess, ids) == [] <==> ids == [])
    ensures forall id :: id in StableSort(StrLess, ids) <==> id in ids
  {
    StrLessIsOrder();
    StableSortSorts(StrLess, ids);
    InMultiset(StableSort(StrLess, ids), ids);
  }

  /** Each entry of each named agent's page table, by agent and position. */
  ghost function Refs(s: Snapshot, among: set<string>): set<(string, int)> {
    set a, i | a in s.pageTables && a in among && a != "" && 0 <= i < |s.pageTables[a]| :: (a, i)
  }

  ghost function Positions(a: string, table: seq<string>): set<(string, int)> {
    set i | 0 <= i < |table| :: (a, i)
  }

  lemma {:induction false} PositionsCounted(a: string, table: seq<string>)
    ensures |Positions(a, table)| == |table|
  {
    if table != [] {
      var n := |table| - 1;
      PositionsCounted(a, table[..n]);
      assert Positions(a, table) == Positions(a, table[..n]) + {(a, n)};
    }
  }

  lemma RefsOfOneMore(s: Snapshot, among: set<string>, a: string)
    requires a in s.pageTables && a !in among
    ensures |Refs(s, among + {a})| == |Refs(s, among)| + if a == "" then 0 else |s.pageTables[a]|
  {
    if a == "" {
      assert Refs(s, among + {a}) == Refs(s, among);
    } else {
      PositionsCounted(a, s.pageTables[a]);
      assert Refs(s, among + {a}) == Refs(s, among) + Positions(a, s.pageTables[a]);
      assert Refs(s, among) !! Positions(a, s.pageTables[a]);
    }
  }

  lemma {:induction false} RefsCounted(s: Snapshot, among: set<string>)
    requires among <= s.pageTables.Keys
    ensures Sum(TableSizes(s, among)) == |Refs(s, among)|
  {
    if among == {} {
      assert TableSizes(s, among) == map[];
    } else {
      var a :| a in among;
      RefsCounted(s, among - {a});
      OneMoreTable(s, among - {a}, a);
      RefsOfOneMore(s, among - {a}, a);
      assert among == among - {a} + {a};
    }
  }

  /** The report counts the agents and every page table entry of a named agent, and carries the snapshot's clocks. */
  lemma ReportCounts(s: Snapshot)
    ensures var task := Summarize(s);
      && task.taskId == s.taskId && task.sequence == s.sequence && task.vruntime == s.vruntime
      && task.agentCount == |s.agents| && task.pageTableRefs == |Refs(s, s.pageTables.Keys)|
  {
    RefsCounted(s, s.pageTables.Keys);
  }

  /** The report lists exactly the agents with an unfinished, respectively completed, snapshot state. */
  lemma ReportLists(s: Snapshot, id: string)
    ensures var task := Summarize(s);
      && (id in task.readyAgents <==> exists i :: 0 <= i < |s.agents| && !Terminal(s.agents[i].state) && s.agents[i].id == id)
      && (id in task.completedAgents <==>
            exists i :: 0 <= i < |s.agents| && s.agents[i].state == Completed && s.agents[i].id == id)
      && Sorted(StrLess, task.readyAgents) && Sorted(StrLess, task.completedAgents)
      && (task.status == "completed" <==> task.readyAgents == [])
  {
    SortedIds(IdsWhere(s.agents, Unfinished));
    SortedIds(IdsWhere(s.agents, Finished));
    IdsWhereMembers(s.agents, Unfinished, id);
    IdsWhereMembers(s.agents, Finished, id);
  }

  /** The report's ready agents are exactly those the server restores as READY, likewise the completed ones. */
  lemma ReportMatchesRestore(registry: map<string, Avp>, s: Snapshot, now: int, i: nat)
    requires UniqueIds(s.agents) && i < |s.agents|
    ensures var r, task, a := RestoreAgents(registry, s.agents, now), Summarize(s), s.agents[i];
      && a.id in r
      && (a.id in task.readyAgents <==> r[a.id].state == Ready)
      && (a.id in task.completedAgents <==> r[a.id].state == Completed)
      && r[a.id].state == (if a.state in {Completed, Failed, Killed} then a.state else Ready)
      && r[a.id].vruntime == a.vruntime && r[a.id].pageTable == a.pageTable
      && r[a.id].consumedTokens == a.consumedTokens
  {
    RestoredInRegistry(registry, s.agents, now);
    ReportLists(s, s.agents[i].id);
    OnlyOneWithId(s.agents);
  }

  /**
   * A restored agent keeps the process id and last contact of its snapshot, so the first heartbeat check
   * after a restart leaves a READY one READY exactly when it had no process or was heard from in time.
   */
  lemma RestoredSurvivesTickIff(registry: map<string, Avp>, s: Snapshot, now: int, i: nat, tick: int, timeout: int)
    requires UniqueIds(s.agents) && i < |s.agents| && !Terminal(s.agents[i].state)
    ensures var a, r := s.agents[i], Registry.TickStep(RestoreAgents(registry, s.agents, now), tick, timeout);
      a.id in r
      && (r[a.id].state == Ready <==> a.pid == 0 || a.lastSeen == 0 || tick - a.lastSeen <= timeout)
      && (r[a.id].state != Ready ==> r[a.id].state == Failed)
  {
    RestoredInRegistry(registry, s.agents, now);
  }

  function AllAgents(snapshots: seq<Snapshot>): seq<Avp> {
    if snapshots == [] then [] else AllAgents(snapshots[..|snapshots| - 1]) + snapshots[|snapshots| - 1].agents
  }

  /** Recovery restores task after task. */
  function RestoreTasks(registry: map<string, Avp>, snapshots: seq<Snapshot>, now: int): map<string, Avp> {
    if snapshots == [] then registry
    else
      var n := |snapshots| - 1;
      RestoreAgents(RestoreTasks(registry, snapshots[..n], now), snapshots[n].agents, now)
  }

  lemma {:induction false} RestoreAppend(registry: map<string, Avp>, xs: seq<Avp>, ys: seq<Avp>, now: int)
    ensures RestoreAgents(registry, xs + ys, now) == RestoreAgents(RestoreAgents(registry, xs, now), ys, now)
  {
    if ys == [] {
      assert xs + ys == xs;
    } else {
      var n := |ys| - 1;
      assert (xs + ys)[..|xs + ys| - 1] == xs + ys[..n];
      RestoreAppend(registry, xs, ys[..n], now);
    }
  }

  /** Restoring task after task is restoring all their agents, so no task disturbs another's. */
  lemma {:induction false} RestoreTasksIsRestoreAll(registry: map<string, Avp>, snapshots: seq<Snapshot>, now: int)
    ensures RestoreTasks(registry, snapshots, now) == RestoreAgents(registry, AllAgents(snapshots), now)
  {
    if snapshots != [] {
      var n := |snapshots| - 1;
      RestoreTasksIsRestoreAll(registry, snapshots[..n], now);
      RestoreAppend(registry, AllAgents(snapshots[..n]), snapshots[n].agents, now);
    }
  }

  lemma OnlyOneWithId(agents: seq<Avp>)
    requires UniqueIds(agents)
    ensures forall i, j :: 0 <= i < |agents| && 0 <= j < |agents| && agents[i].id == agents[j].id ==> i == j
  {
  }

  // ----- the object -----

  class Store {
    var files: Files

    constructor ()
      ensures files == map[]
    {
      files := map[];
    }

    method Save(snapshot: Snapshot, now: int) returns (r: Result<()>)
      modifies this
      ensures (files, r) == SaveStep(old(files), snapshot, now)
    {
      if snapshot.taskId == "" {
        return Err(IdRequired);
      }
      var s := snapshot;
      if s.sequence <= 0 {
        s := s.(sequence := 1);
      }
      if s.mode == "" {
        s := s.(mode := "runtime-state");
      }
      if s.createdAt == 0 {
        s := s.(createdAt := now);
      }
      files := files[(Dir(s.taskId), s.sequence) := s];
      r := Ok(());
    }

    /** The snapshots in some directories, sorted. */
    method Collect(dirs: set<string>) returns (snapshots: seq<Snapshot>)
      requires FilesOk(files)
      ensures Listing(files, dirs, snapshots)
    {
      var found: seq<Snapshot> := [];
      var todo := files.Keys;
      while todo != {}
        invariant todo <= files.Keys
        invariant NoDup(found)
        invariant forall s :: s in found <==>
          KeyOf(s) in files && KeyOf(s) !in todo && files[KeyOf(s)] == s && Dir(s.taskId) in dirs
        decreases |todo|
      {
        var k :| k in todo;
        todo := todo - {k};
        if k.0 in dirs {
          found := found + [files[k]];
        }
      }
      SnapshotLessIsOrder();
      StableSortSorts(SnapshotLess, found);
      snapshots := StableSort(SnapshotLess, found);
      InMultiset(snapshots, found);
      NoDupByMultiset(found, snapshots);
    }

    method LoadLatest(taskId: string) returns (r: Result<Snapshot>)
      requires FilesOk(files)
      ensures taskId == "" ==> r == Err(IdRequired)
      ensures taskId != "" ==>
        exists list :: Listing(files, {Dir(taskId)}, list) && r == Loaded(list)
    {
      if taskId == "" {
        return Err(IdRequired);
      }
      var snapshots := Collect({Dir(taskId)});
      if |snapshots| == 0 {
        r := Err(NotFound);
      } else {
        r := Ok(snapshots[|snapshots| - 1]);
      }
    }

    method List() returns (snapshots: seq<Snapshot>)
      requires FilesOk(files)
      ensures Listing(files, AllDirs(files), snapshots)
    {
      snapshots := Collect(set k | k in files :: k.0);
    }

    /** One entry per task, in id order. */
    method RecoverAll() returns (tasks: seq<RecoveredTask>)
      requires FilesOk(files)
      ensures Sorted(StrLess, TaskIds(tasks)) && NoDup(TaskIds(tasks))
      ensures forall t :: t in TaskIds(tasks) <==> HasTask(files, t)
      ensures forall i :: 0 <= i < |tasks| ==> SummarizesLatest(files, tasks[i])
    {
      var snapshots := List();
      var latest := LastPerTask(snapshots);
      LatestIsLatest(files, snapshots);
      tasks := SummarizeAll(latest);
      forall i | 0 <= i < |tasks|
        ensures SummarizesLatest(files, tasks[i])
      {
        assert TaskIds(tasks)[i] in TaskIds(tasks) && Describes(latest, tasks[i], tasks[i].taskId);
        assert IsLatest(files, tasks[i].taskId, latest[tasks[i].taskId]);
      }
    }
  }

  method SummarizeRecovery(s: Snapshot) returns (task: RecoveredTask)
    ensures task == Summarize(s)
  {
    var refs := CountRefs(s);
    var status := "completed";
    var completed: seq<string>, ready: seq<string> := [], [];
    for i := 0 to |s.agents|
      invariant completed == IdsWhere(s.agents[..i], Finished) && ready == IdsWhere(s.agents[..i], Unfinished)
      invariant status == if ready == [] then "completed" else "recovered"
    {
      var agent := s.agents[i];
      assert s.agents[..i + 1][..i] == s.agents[..i];
      if Terminal(agent.state) {
        if agent.state == Completed {
          completed := completed + [agent.id];
        }
        continue;
      }
      status := "recovered";
      ready := ready + [agent.id];
    }
    assert s.agents[..|s.agents|] == s.agents;
    task := RecoveredTask(s.taskId, s.sequence, status, |s.agents|, StableSort(StrLess, completed),
                          StableSort(StrLess, ready), refs, s.vruntime);
  }

  method CountRefs(s: Snapshot) returns (refs: int)
    ensures refs == Sum(TableSizes(s, s.pageTables.Keys))
  {
    refs := 0;
    var todo := s.pageTables.Keys;
    assert TableSizes(s, s.pageTables.Keys - todo) == map[];
    while todo != {}
      invariant todo <= s.pageTables.Keys
      invariant refs == Sum(TableSizes(s, s.pageTables.Keys - todo))
      decreases |todo|
    {
      var a :| a in todo;
      ghost var done := s.pageTables.Keys - todo;
      todo := todo - {a};
      assert s.pageTables.Keys - todo == done + {a};
      OneMoreTable(s, done, a);
      if a == "" {
        continue;
      }
      refs := refs + |s.pageTables[a]|;
    }
    assert s.pageTables.Keys - todo == s.pageTables.Keys;
  }

  lemma OneMoreTable(s: Snapshot, done: set<string>, a: string)
    requires a in s.pageTables && a !in done
    ensures Sum(TableSizes(s, done + {a})) == Sum(TableSizes(s, done)) + if a == "" then 0 else |s.pageTables[a]|
  {
    if a == "" {
      assert TableSizes(s, done + {a}) == TableSizes(s, done);
    } else {
      assert TableSizes(s, done + {a}) == TableSizes(s, done)[a := |s.pageTables[a]|];
      SumUpdate(TableSizes(s, done), a, |s.pageTables[a]|);
    }
  }

  method LastPerTask(snapshots: seq<Snapshot>) returns (latest: map<string, Snapshot>)
    ensures latest == LatestByTask(snapshots)
  {
    latest := map[];
    for i := 0 to |snapshots|
      invariant latest == LatestByTask(snapshots[..i])
    {
      assert snapshots[..i + 1][..i] == snapshots[..i];
      if snapshots[i].taskId == "" {
        continue;
      }
      latest := latest[snapshots[i].taskId := snapshots[i]];
    }
    assert snapshots[..|snapshots|] == snapshots;
  }

  ghost predicate Describes(latest: map<string, Snapshot>, task: RecoveredTask, t: string) {
    t in latest && task.taskId == t && task == Summarize(latest[t])
  }

  method SummarizeTask(latest: map<string, Snapshot>, t: string) returns (task: RecoveredTask)
    requires t in latest && latest[t].taskId == t
    ensures Describes(latest, task, t)
  {
    task := SummarizeRecovery(latest[t]);
  }

  method SummarizeAll(latest: map<string, Snapshot>) returns (tasks: seq<RecoveredTask>)
    requires forall t :: t in latest ==> latest[t].taskId == t
    ensures Sorted(StrLess, TaskIds(tasks)) && NoDup(TaskIds(tasks))
    ensures forall t :: t in TaskIds(tasks) <==> t in latest
    ensures forall i :: 0 <= i < |tasks| ==> Describes(latest, tasks[i], tasks[i].taskId)
  {
    var ids := SortedKeys(latest);
    tasks := [];
    for i := 0 to |ids|
      invariant |tasks| == i
      invariant forall j :: 0 <= j < i ==> Describes(latest, tasks[j], ids[j])
    {
      assert ids[i] in ids;
      var task := SummarizeTask(latest, ids[i]);
      tasks := tasks + [task];
    }
    InIdOrder(latest, ids, tasks);
  }

  lemma InIdOrder(latest: map<string, Snapshot>, ids: seq<string>, tasks: seq<RecoveredTask>)
    requires |tasks| == |ids| && forall j :: 0 <= j < |ids| ==> Describes(latest, tasks[j], ids[j])
    ensures TaskIds(tasks) == ids
    ensures forall j :: 0 <= j < |tasks| ==> Describes(latest, tasks[j], tasks[j].taskId)
  {
    forall j | 0 <= j < |tasks|
      ensures tasks[j].taskId == ids[j] && Describes(latest, tasks[j], ids[j])
    {
    }
  }

  lemma LatestIsLatest(files: Files, r: seq<Snapshot>)
    requires FilesOk(files) && Listing(files, AllDirs(files), r)
    ensures forall t :: t in LatestByTask(r) <==> HasTask(files, t)
    ensures forall t :: t in LatestByTask(r) ==> IsLatest(files, t, LatestByTask(r)[t])
  {
    NoEmptyTask(r);
    forall t
      ensures t in LatestByTask(r) <==> HasTask(files, t)
      ensures t in LatestByTask(r) ==> IsLatest(files, t, LatestByTask(r)[t])
    {
      if t in LatestByTask(r) {
        var i := LatestByTaskIsLast(r, t);
        assert r[i] in r;
      }
      if t != "" && Dir(t) in AllDirs(files) { ListedLatest(files, AllDirs(files), r, t); }
    }
  }

  lemma {:induction false} NoEmptyTask(r: seq<Snapshot>)
    ensures "" !in LatestByTask(r)
  {
    if r != [] {
      NoEmptyTask(r[..|r| - 1]);
    }
  }

  function TaskIds(tasks: seq<RecoveredTask>): seq<string> {
    seq(|tasks|, i requires 0 <= i < |tasks| => tasks[i].taskId)
  }

  method SortedKeys(m: map<string, Snapshot>) returns (ids: seq<string>)
    ensures Sorted(StrLess, ids) && NoDup(ids) && forall t :: t in ids <==> t in m
  {
    var found: seq<string> := [];
    var todo := m.Keys;
    while todo != {}
      invariant todo <= m.Keys
      invariant NoDup(found) && forall t :: t in found <==> t in m && t !in todo
      decreases |todo|
    {
      var t :| t in todo;
      todo := todo - {t};
      found := found + [t];
    }
    StrLessIsOrder();
    StableSortSorts(StrLess, found);
    ids := StableSort(StrLess, found);
    InMultiset(ids, found);
    NoDupByMultiset(found, ids);
  }
}
