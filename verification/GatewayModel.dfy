/** System calls on the page store and the blackboard, as functions of the values they work on. */
module GatewayModel {
  import opened Prelude
  import opened CvmModel
  import opened CvmIndex
  import opened CvmBytes
  import opened CvmLedger
  import opened CvmRefinement
  import Bb = Blackboard
  import Ft = FileTrees
  import Ws = Workspace
  import Wt = WorkspaceSteps
  import Wr = WorkspaceRuns

  datatype Status = StatusOK | StatusError | StatusTimeout | StatusDenied

  /** The memory controls of `context.materialize`. */
  datatype Controls = Controls(pins: seq<PageId>, compressCold: bool, maxAccess: int, evictMaxBytes: int)

  // ----- context.materialize -----

  /** Pins in order, stopping at the first unknown page. */
  function PinAll(s: State, ids: seq<PageId>, now: int): (State, Result<()>)
    decreases |ids|
  {
    if ids == [] then (s, Ok(()))
    else
      var (s1, r) := PinStep(s, ids[0], now);
      if r.Err? then (s1, r) else PinAll(s1, ids[1..], now)
  }

  ghost function PinAndCompress(c: Codec, s: State, k: Controls, now: int): (State, Result<()>) {
    var (s1, r) := PinAll(s, k.pins, now);
    if r.Ok? && k.compressCold then (CompressStep(c, s1, if k.maxAccess > 1 then k.maxAccess else 1, now).0, r) else (s1, r)
  }

  /** `t` is a state the eviction control may leave. */
  ghost predicate EvictedTo(s: State, t: State, maxBytes: int, order: seq<PageId>) {
    if maxBytes <= 0 || TotalResident(s.pages) <= maxBytes then t == s
    else EvictionOrder(s, order) && t == EvictStep(s, order, maxBytes).0
  }

  /** `t` and `r` are what the controls leave. */
  ghost predicate Controlled(c: Codec, s: State, k: Controls, now: int, t: State, r: Result<()>, order: seq<PageId>) {
    var (s1, r1) := PinAndCompress(c, s, k, now);
    r == r1 && if r.Ok? then EvictedTo(s1, t, k.evictMaxBytes, order) else t == s1
  }

  /** The controls are accepted exactly when every page to pin is known. */
  lemma {:induction false} PinAllOkIffKnown(s: State, ids: seq<PageId>, now: int)
    ensures PinAll(s, ids, now).1.Ok? <==> forall id :: id in ids ==> id in s.pages
    decreases |ids|
  {
    if ids != [] {
      assert ids[0] in ids;
      if ids[0] in s.pages {
        var s1 := PinStep(s, ids[0], now).0;
        PinAllOkIffKnown(s1, ids[1..], now);
        assert s1.pages.Keys == s.pages.Keys;
        assert forall id :: id in ids <==> id == ids[0] || id in ids[1..];
      }
    }
  }

  /** The flag is set on exactly the pages that had it and the given ones; no page comes or goes. */
  ghost predicate PinsExactly(s: State, t: State, ids: seq<PageId>) {
    && t.pages.Keys == s.pages.Keys
    && forall id :: id in s.pages ==> (t.pages[id].pinned <==> s.pages[id].pinned || id in ids)
  }

  /** The pins run up to the first unknown page. */
  lemma {:induction false} PinsUpToUnknown(s: State, ids: seq<PageId>, now: int) returns (n: nat)
    ensures n <= |ids| && (forall i :: 0 <= i < n ==> ids[i] in s.pages) && (n < |ids| ==> ids[n] !in s.pages)
    ensures PinsExactly(s, PinAll(s, ids, now).0, ids[..n])
    decreases |ids|
  {
    n := 0;
    if ids != [] && ids[0] in s.pages {
      var s1 := PinStep(s, ids[0], now).0;
      assert s1.pages.Keys == s.pages.Keys;
      var m := PinsUpToUnknown(s1, ids[1..], now);
      n := m + 1;
      assert ids[..n] == [ids[0]] + ids[1..][..m];
    }
  }

  lemma EvictedToKeepsPins(s: State, t: State, maxBytes: int, order: seq<PageId>)
    requires EvictedTo(s, t, maxBytes, order)
    ensures forall id :: id in t.pages ==> id in s.pages && t.pages[id].pinned == s.pages[id].pinned
    ensures forall id :: id in s.pages && s.pages[id].pinned ==> id in t.pages
  {
    if t != s { EvictionTakesColdest(s, order, maxBytes); }
  }

  /**
   * After the controls, compression and eviction included, exactly the pages pinned before and those named ahead of
   * the first unknown one are pinned, and all of them are there; when the controls are accepted that is every one named.
   */
  lemma ControlsPin(c: Codec, s: State, k: Controls, now: int, t: State, r: Result<()>, order: seq<PageId>) returns (n: nat)
    requires Controlled(c, s, k, now, t, r, order)
    ensures n <= |k.pins| && (forall i :: 0 <= i < n ==> k.pins[i] in s.pages) && (n < |k.pins| ==> k.pins[n] !in s.pages)
    ensures r.Ok? <==> n == |k.pins|
    ensures forall id :: id in s.pages && (s.pages[id].pinned || id in k.pins[..n]) ==> id in t.pages
    ensures forall id :: id in t.pages ==> id in s.pages && (t.pages[id].pinned <==> s.pages[id].pinned || id in k.pins[..n])
    ensures r.Ok? ==> forall id :: id in k.pins ==> id in t.pages && t.pages[id].pinned
  {
    n := PinsUpToUnknown(s, k.pins, now);
    PinAllOkIffKnown(s, k.pins, now);
    var s1 := PinAndCompress(c, s, k, now).0;
    assert PinsExactly(s, s1, k.pins[..n]);
    if r.Ok? { EvictedToKeepsPins(s1, t, k.evictMaxBytes, order); }
    assert n == |k.pins| ==> k.pins[..n] == k.pins;
  }

  /** Accepted controls with a budget meet it or leave only held and pinned pages; without one, or refused, they drop nothing. */
  lemma ControlsMeetBudget(c: Codec, s: State, k: Controls, now: int, t: State, r: Result<()>, order: seq<PageId>)
    requires Controlled(c, s, k, now, t, r, order)
    ensures r.Ok? && k.evictMaxBytes > 0 ==>
      TotalResident(t.pages) <= k.evictMaxBytes || forall id :: id in t.pages ==> t.pages[id].refCount > 0 || t.pages[id].pinned
    ensures r.Err? || k.evictMaxBytes <= 0 ==> t.pages.Keys == s.pages.Keys
  {
    PinsKeepForm(s, k.pins, now);
    var s1 := PinAndCompress(c, s, k, now).0;
    if r.Ok? && k.evictMaxBytes > 0 && TotalResident(s1.pages) > k.evictMaxBytes { EvictionTakesColdest(s1, order, k.evictMaxBytes); }
  }

  /** The page is plain, unpinned, not to be pinned, not empty, and rarely enough used. */
  predicate ControlsCompress(p: Page, id: PageId, k: Controls) {
    && !p.compressed && !p.pinned && id !in k.pins && p.content != []
    && (p.accessCount <= k.maxAccess || p.accessCount <= 1)
  }

  lemma PinAndCompressTakes(c: Codec, s: State, k: Controls, now: int)
    ensures var (t, r) := PinAndCompress(c, s, k, now);
      && t.pages.Keys == s.pages.Keys
      && forall id :: id in t.pages ==>
           (t.pages[id].compressed <==> s.pages[id].compressed || (r.Ok? && k.compressCold && ControlsCompress(s.pages[id], id, k)))
  {
    PinsKeepForm(s, k.pins, now);
    PinAllOkIffKnown(s, k.pins, now);
    var n := PinsUpToUnknown(s, k.pins, now);
    assert n == |k.pins| ==> k.pins[..n] == k.pins;
  }

  /** Of the pages that are left, the controls compressed exactly the rarely used ones, when accepted and asked to. */
  lemma ControlsCompressCold(c: Codec, s: State, k: Controls, now: int, t: State, r: Result<()>, order: seq<PageId>)
    requires Controlled(c, s, k, now, t, r, order)
    ensures forall id :: id in t.pages ==>
      && id in s.pages
      && (t.pages[id].compressed <==> s.pages[id].compressed || (r.Ok? && k.compressCold && ControlsCompress(s.pages[id], id, k)))
  {
    PinAndCompressTakes(c, s, k, now);
    var s1 := PinAndCompress(c, s, k, now).0;
    if t != s1 { EvictionTakesColdest(s1, order, k.evictMaxBytes); }
  }

  predicate SameUse(p: Page, q: Page) {
    q.compressed == p.compressed && q.content == p.content && q.accessCount == p.accessCount
  }

  lemma {:induction false} PinsKeepForm(s: State, ids: seq<PageId>, now: int)
    ensures var t := PinAll(s, ids, now).0;
      t.pages.Keys == s.pages.Keys && forall id :: id in t.pages ==> SameUse(s.pages[id], t.pages[id])
    decreases |ids|
  {
    if ids != [] && ids[0] in s.pages { PinsKeepForm(PinStep(s, ids[0], now).0, ids[1..], now); }
  }

  /** With `s` for its store the system still keeps its ledger and shows everybody the same texts. */
  ghost predicate Shows(c: Codec, y: System, m: Simple, s: State) {
    Ledger(y.(store := s)) && Refines(c, y.(store := s), m)
  }

  /** A maintenance call keeps the ledger and what everybody reads. */
  lemma MaintenanceKeeps(c: Codec, y: System, m: Simple, s: State, call: Call, now: int, t: State)
    requires Sound(c) && Shows(c, y, m, s) && Enabled(s, call) && t == Apply(c, s, call, now)
    requires !call.Create? && !call.Mount? && !call.Release?
    ensures Shows(c, y, m, t)
  {
    var z := y.(store := s);
    StepKeepsLedger(c, z, Do(call), now);
    assert Next(c, z, Do(call), now) == y.(store := t);
    MaintenanceUnseen(c, z, call, now);
    UnseenKeepsRefinement(c, z, m, t);
  }

  lemma PinKeeps(c: Codec, y: System, m: Simple, s: State, id: PageId, now: int)
    requires Sound(c) && Shows(c, y, m, s)
    ensures Shows(c, y, m, PinStep(s, id, now).0)
  {
    MaintenanceKeeps(c, y, m, s, Pin(id), now, PinStep(s, id, now).0);
  }

  lemma {:induction false} PinsKeep(c: Codec, y: System, m: Simple, s: State, ids: seq<PageId>, now: int)
    requires Sound(c) && Shows(c, y, m, s)
    ensures Shows(c, y, m, PinAll(s, ids, now).0)
    decreases |ids|
  {
    if ids != [] {
      var s1 := PinStep(s, ids[0], now).0;
      PinKeeps(c, y, m, s, ids[0], now);
      if ids[0] in s.pages { PinsKeep(c, y, m, s1, ids[1..], now); }
    }
  }

  lemma CompressKeeps(c: Codec, y: System, m: Simple, s: State, limit: int, now: int)
    requires Sound(c) && Shows(c, y, m, s)
    ensures Shows(c, y, m, CompressStep(c, s, limit, now).0)
  {
    MaintenanceKeeps(c, y, m, s, Compress(limit), now, CompressStep(c, s, limit, now).0);
  }

  lemma EvictionKeeps(c: Codec, y: System, m: Simple, s: State, maxBytes: int, order: seq<PageId>, now: int)
    requires Sound(c) && Shows(c, y, m, s) && EvictionOrder(s, order)
    ensures Shows(c, y, m, EvictStep(s, order, maxBytes).0)
  {
    MaintenanceKeeps(c, y, m, s, Evict(maxBytes, order), now, EvictStep(s, order, maxBytes).0);
  }

  lemma PinAndCompressKeeps(c: Codec, y: System, m: Simple, s: State, k: Controls, now: int)
    requires Sound(c) && Shows(c, y, m, s)
    ensures Shows(c, y, m, PinAndCompress(c, s, k, now).0)
  {
    PinsKeep(c, y, m, s, k.pins, now);
    var (s1, r) := PinAll(s, k.pins, now);
    if r.Ok? && k.compressCold {
      CompressKeeps(c, y, m, s1, if k.maxAccess > 1 then k.maxAccess else 1, now);
    }
  }

  lemma EvictKeeps(c: Codec, y: System, m: Simple, s: State, t: State, maxBytes: int, order: seq<PageId>, now: int)
    requires Sound(c) && Shows(c, y, m, s) && EvictedTo(s, t, maxBytes, order)
    ensures Shows(c, y, m, t)
  {
    if !(maxBytes <= 0 || TotalResident(s.pages) <= maxBytes) { EvictionKeeps(c, y, m, s, maxBytes, order, now); }
  }

  lemma ControlsKeep(c: Codec, y: System, m: Simple, k: Controls, now: int, t: State, r: Result<()>, order: seq<PageId>)
    requires Sound(c) && Shows(c, y, m, y.store) && Controlled(c, y.store, k, now, t, r, order)
    ensures Shows(c, y, m, t)
  {
    PinAndCompressKeeps(c, y, m, y.store, k, now);
    if r.Ok? { EvictKeeps(c, y, m, PinAndCompress(c, y.store, k, now).0, t, k.evictMaxBytes, order, now); }
  }

  lemma ShownText(c: Codec, y: System, m: Simple, s: State, a: AgentId, now: int)
    requires Shows(c, y, m, s)
    ensures MaterializeStep(c, s, a, now).1 == Ok(Concat(List(m, a)))
  {
    ReadsConcatenation(c, s, m.names, Table(s, a), now);
  }

  /** An agent reads the same text with any controls as with none, whether or not they are accepted. */
  lemma ControlsInvisible(c: Codec, run: seq<System>, steps: seq<(Step, int)>, n: nat, a: AgentId, k: Controls,
                          now: int, now': int, t: State, r: Result<()>, order: seq<PageId>)
    requires Sound(c) && BalancedRun(c, run, steps) && n <= |steps|
    requires Controlled(c, run[n].store, k, now, t, r, order)
    ensures r.Ok? <==> forall id :: id in k.pins ==> id in run[n].store.pages
    ensures MaterializeStep(c, t, a, now).1 == MaterializeStep(c, run[n].store, a, now').1
    ensures MaterializeStep(c, t, a, now).1 == Ok(Concat(List(SimpleRun(c, run, steps, n), a)))
  {
    PinAllOkIffKnown(run[n].store, k.pins, now);
    LedgerInEveryRun(c, run, steps, n);
    RefinementInEveryRun(c, run, steps, n);
    var m := SimpleRun(c, run, steps, n);
    assert run[n].(store := run[n].store) == run[n];
    ControlsKeep(c, run[n], m, k, now, t, r, order);
    ShownText(c, run[n], m, t, a, now);
    AgentsReadWhatTheyMounted(c, run, steps, n, a, now');
  }

  // ----- ipc.poll and page inheritance -----

  /** Mounts in order, stopping at the first unknown page. */
  function MountAll(s: State, a: AgentId, ids: seq<PageId>, now: int): (State, Result<()>)
    decreases |ids|
  {
    if ids == [] then (s, Ok(()))
    else
      var (s1, r) := MountStep(s, a, ids[0], now);
      if r.Err? then (s1, r) else MountAll(s1, a, ids[1..], now)
  }

  /** Mounts in order, passing over unknown pages. */
  function MountEach(s: State, a: AgentId, ids: seq<PageId>, now: int): State
    decreases |ids|
  {
    if ids == [] then s else MountEach(MountStep(s, a, ids[0], now).0, a, ids[1..], now)
  }

  function AppendAllNew(table: seq<PageId>, ids: seq<PageId>): seq<PageId>
    decreases |ids|
  {
    if ids == [] then table else AppendAllNew(AppendNew(table, ids[0]), ids[1..])
  }

  /** A poll succeeds exactly when every delivered page is live; the new ones are appended in log order. */
  lemma {:induction false} MountAllAppendsInOrder(s: State, a: AgentId, ids: seq<PageId>, now: int)
    ensures MountAll(s, a, ids, now).1.Ok? <==> forall id :: id in ids ==> id in s.pages
    ensures MountAll(s, a, ids, now).1.Ok? ==> Table(MountAll(s, a, ids, now).0, a) == AppendAllNew(Table(s, a), ids)
    ensures forall b :: b != a ==> Table(MountAll(s, a, ids, now).0, b) == Table(s, b)
    ensures MountAll(s, a, ids, now).0.pages.Keys == s.pages.Keys
    decreases |ids|
  {
    if ids != [] {
      assert ids[0] in ids;
      assert forall id :: id in ids <==> id == ids[0] || id in ids[1..];
      var s1 := MountStep(s, a, ids[0], now).0;
      assert s1.pages.Keys == s.pages.Keys;
      if ids[0] in s.pages {
        MountAllAppendsInOrder(s1, a, ids[1..], now);
        assert Table(s1, a) == AppendNew(Table(s, a), ids[0]);
      }
    }
  }

  /** Each page is there afterwards, none twice, and what was there comes first. */
  lemma {:induction false} AppendAllNewKeeps(table: seq<PageId>, ids: seq<PageId>)
    requires NoDup(table)
    ensures var r := AppendAllNew(table, ids);
      && NoDup(r) && table <= r
      && forall id :: id in r <==> id in table || id in ids
    decreases |ids|
  {
    if ids != [] {
      var t1 := AppendNew(table, ids[0]);
      AppendAllNewKeeps(t1, ids[1..]);
      assert forall id :: id in ids <==> id == ids[0] || id in ids[1..];
      assert table <= t1;
    }
  }

  lemma {:induction false} AppendAllNewSplit(table: seq<PageId>, ids: seq<PageId>, more: seq<PageId>)
    ensures AppendAllNew(table, ids + more) == AppendAllNew(AppendAllNew(table, ids), more)
    decreases |ids|
  {
    if ids == [] {
      assert ids + more == more;
    } else {
      assert (ids + more)[1..] == ids[1..] + more;
      AppendAllNewSplit(AppendNew(table, ids[0]), ids[1..], more);
    }
  }

  lemma {:induction false} MountEachOfLive(s: State, a: AgentId, ids: seq<PageId>, now: int)
    requires forall id :: id in ids ==> id in s.pages
    ensures MountEach(s, a, ids, now) == MountAll(s, a, ids, now).0
    decreases |ids|
  {
    if ids != [] {
      assert ids[0] in ids;
      var s1 := MountStep(s, a, ids[0], now).0;
      assert s1.pages.Keys == s.pages.Keys;
      MountEachOfLive(s1, a, ids[1..], now);
    }
  }

  /** A child spawned with nothing in between gets its parent's new pages after its own, in the parent's order. */
  lemma ChildInheritsParent(s: State, parent: AgentId, child: AgentId, now: int)
    requires Indexed(s)
    ensures var t := MountEach(s, child, Table(s, parent), now);
      && Table(t, child) == AppendAllNew(Table(s, child), Table(s, parent))
      && (parent != child ==> Table(t, parent) == Table(s, parent))
  {
    var ids := Table(s, parent);
    MountEachOfLive(s, child, ids, now);
    MountAllAppendsInOrder(s, child, ids, now);
  }

  /** Board, store and outcome of a poll with nothing in between. */
  function PollCall(s: State, b: Bb.Board, topic: string, a: AgentId, now: int): (State, Bb.Board, seq<PageId>, Result<()>) {
    var (b', delivered) := Bb.PollStep(b, topic, a);
    var (s', r) := MountAll(s, a, Bb.PageIds(delivered), now);
    (s', b', Bb.PageIds(delivered), r)
  }

  /**
   * A poll fails exactly when some page it is handed is unknown. In every run of the blackboard its messages are
   * in no later delivery either: all that is handed over after it was published after it.
   */
  lemma FailedPollIsNotRepeated(ops: seq<Bb.Op>, n: nat, s: State, topic: string, a: AgentId, now: int)
    requires n < |ops| && ops[n] == Bb.Poll(topic, a)
    ensures var handed := Bb.PollStep(Bb.After(ops[..n]), topic, a).1;
      PollCall(s, Bb.After(ops[..n]), topic, a, now).3.Err? <==> exists id :: id in Bb.PageIds(handed) && id !in s.pages
    ensures Bb.OnlyNewer(ops, n, topic, a)
  {
    MountAllAppendsInOrder(s, a, Bb.PageIds(Bb.PollStep(Bb.After(ops[..n]), topic, a).1), now);
    Bb.NeverDeliveredAgain(ops, n, topic, a);
  }

  // ----- tool.exec -----

  datatype ToolOutcome = Succeeded | Failed | TimedOut

  /** A command's effect on the agent's directories and how it ended. */
  datatype ToolRun = ToolRun(outcome: ToolOutcome, upper: Ft.Layer, merged: Ft.Tree)

  /** Without a workspace manager there is nothing to commit or roll back. */
  function UnmanagedStatus(outcome: ToolOutcome): Status {
    match outcome
    case Succeeded => StatusOK
    case Failed => StatusError
    case TimedOut => StatusTimeout
  }

  /** New state, status, and whether the workspace step after the command failed. */
  function ToolCall(s: Ws.State, a: string, run: ToolRun, build: Ws.Io, finish: Ws.Io): (Ws.State, Status, bool) {
    if a == "" then (s, StatusError, false)
    else
      var (s1, ready) := WithWorkspace(s, a, build);
      if !ready then (s1, StatusError, false)
      else
        Finished(s1, a, run, finish)
  }

  /** The command and what follows it. */
  function Finished(s: Ws.State, a: string, run: ToolRun, finish: Ws.Io): (Ws.State, Status, bool) {
    var s2 := Ws.ToolStep(s, a, run.upper, run.merged);
    match run.outcome
    case Succeeded => var (t, r) := Ws.CommitStep(s2, a, finish); (t, if r.Ok? then StatusOK else StatusError, r.Err?)
    case Failed => var (t, r) := Ws.RollbackStep(s2, a, finish); (t, StatusError, r.Err?)
    case TimedOut => var (t, r) := Ws.RollbackStep(s2, a, finish); (t, StatusTimeout, r.Err?)
  }

  /** Whether the working directory asked for lies in the workspace, and could be made. */
  datatype Cwd = Usable | Escapes | Unmade

  /** A command that never starts. */
  function UnstartedCall(s: Ws.State, a: string, cwd: Cwd, build: Ws.Io): (Ws.State, Status, bool) {
    if a == "" then (s, StatusError, false)
    else
      var (s1, ready) := WithWorkspace(s, a, build);
      (s1, if ready && cwd == Escapes then StatusDenied else StatusError, false)
  }

  /** A directory outside the workspace is denied once there is a workspace to be outside of; all else is an error. */
  lemma UnstartedStatus(s: Ws.State, a: string, cwd: Cwd, build: Ws.Io)
    ensures var (t, status, workspaceError) := UnstartedCall(s, a, cwd, build);
      && (status == StatusDenied <==> a != "" && WithWorkspace(s, a, build).1 && cwd == Escapes)
      && (status == StatusDenied || status == StatusError) && !workspaceError
      && (a == "" || a in s.workspaces ==> t == s)
    ensures forall run: ToolRun, finish: Ws.Io :: ToolCall(s, "", run, build, finish) == (s, StatusError, false)
  {
  }

  /** The state a command starts in: an agent without a workspace gets one made. */
  function WithWorkspace(s: Ws.State, a: string, build: Ws.Io): (Ws.State, bool) {
    if a in s.workspaces then (s, true)
    else
      var (t, r) := Ws.CreateStep(s, a, Ws.Fixture, build);
      (t, r.Ok?)
  }

  /** A workspace made for the call is recorded, holds the fixture, shows it, and has no output. */
  lemma MadeForTheCall(s: Ws.State, a: string, build: Ws.Io)
    requires Wt.WsOk(s, a) && a != "" && WithWorkspace(s, a, build).1
    ensures var t := WithWorkspace(s, a, build).0;
      && Wt.WsOk(t, a) && a in t.workspaces
      && (a !in s.workspaces ==>
            Wt.DirOf(t, a).lower == Ws.View(Wt.DirOf(t, a)) == Ws.DEFAULT_LOWER && Wt.DirOf(t, a).output == map[])
  {
    if a !in s.workspaces {
      Wr.CreateConfined(s, a, Ws.Fixture, build);
      Wr.CreateIsCreated(s, a, Ws.Fixture, build);
      Wr.RemovalOfDir(Wt.DirOf(s, a), build);
      Wr.BuiltShowsSeed(Some(Ws.DEFAULT_LOWER), build);
    }
  }

  /**
   * A command that fails or times out with no workspace error leaves the agent's view equal to its lower tree,
   * and lower tree and committed output as they were, on the call that makes the workspace too.
   */
  lemma FailedToolLeavesLower(s: Ws.State, a: string, run: ToolRun, build: Ws.Io, finish: Ws.Io)
    requires Wt.WsOk(s, a) && a != "" && WithWorkspace(s, a, build).1 && run.outcome != Succeeded
    ensures var (t, status, workspaceError) := ToolCall(s, a, run, build, finish);
      var d, d' := Wt.DirOf(WithWorkspace(s, a, build).0, a), Wt.DirOf(t, a);
      && (!workspaceError ==> Ws.View(d') == d.lower)
      && d'.lower == d.lower && d'.output == d.output
      && (a !in s.workspaces ==> d.lower == Ws.DEFAULT_LOWER && d.output == map[])
      && status == if run.outcome == TimedOut then StatusTimeout else StatusError
  {
    MadeForTheCall(s, a, build);
    var s1 := WithWorkspace(s, a, build).0;
    Wr.ToolConfined(s1, a, run.upper, run.merged);
    Wt.RollbackRestores(Ws.ToolStep(s1, a, run.upper, run.merged), a, finish);
  }

  /** In every run of workspace operations, such a command gives an undamaged agent its seed back. */
  lemma FailedToolRestoresSeed(states: seq<Ws.State>, ops: seq<(Wr.Op, Ws.Io)>, agents: set<string>, k: nat,
                               a: string, run: ToolRun, build: Ws.Io, finish: Ws.Io)
    requires Wr.Runs(states, ops, agents) && k <= |ops| && Wr.Undamaged(states, ops, a, k) && a != ""
    ensures WithWorkspace(states[k], a, build).1 && run.outcome != Succeeded
            && !ToolCall(states[k], a, run, build, finish).2 ==>
              Ws.View(Wt.DirOf(ToolCall(states[k], a, run, build, finish).0, a))
                == if a in states[k].workspaces then Wr.Seed(states, ops, k, a) else Ws.DEFAULT_LOWER
  {
    Wr.OkInEveryRun(states, ops, agents, k);
    assert Wt.WsOk(states[k], a);
    if WithWorkspace(states[k], a, build).1 && run.outcome != Succeeded {
      FailedToolLeavesLower(states[k], a, run, build, finish);
      if a in states[k].workspaces { Wr.LowerIsSeedInEveryRun(states, ops, agents, k, a); }
    }
  }

  /**
   * A command that succeeds keeps what it wrote, whether or not its commit does: a failed commit is an error
   * but rolls nothing back, on the call that makes the workspace too.
   */
  lemma FailedCommitKeepsChanges(s: Ws.State, a: string, run: ToolRun, build: Ws.Io, finish: Ws.Io)
    requires Wt.WsOk(s, a) && a != "" && WithWorkspace(s, a, build).1 && run.outcome == Succeeded
    ensures var (t, status, workspaceError) := ToolCall(s, a, run, build, finish);
      var d := Wt.DirOf(WithWorkspace(s, a, build).0, a);
      && Ws.View(Wt.DirOf(t, a)) == (if d.mounted then Ws.Over(d.lower, run.upper) else run.merged)
      && Wt.DirOf(t, a).lower == d.lower
      && (status == StatusOK <==> !workspaceError) && (status == StatusOK || status == StatusError)
  {
    MadeForTheCall(s, a, build);
    var s1 := WithWorkspace(s, a, build).0;
    Wr.ToolConfined(s1, a, run.upper, run.merged);
    Wt.CommitPublishes(Ws.ToolStep(s1, a, run.upper, run.merged), a, finish);
  }

  /** The commit of a command that succeeded fails exactly when a step of it does or something cannot be published. */
  lemma CommitFailsIff(s: Ws.State, a: string, run: ToolRun, build: Ws.Io, finish: Ws.Io)
    requires Wt.WsOk(s, a) && a != "" && WithWorkspace(s, a, build).1 && run.outcome == Succeeded
    ensures var t := Ws.ToolStep(WithWorkspace(s, a, build).0, a, run.upper, run.merged);
      a in t.workspaces
      && (ToolCall(s, a, run, build, finish).1 == StatusOK <==>
            Wt.CommitRuns(finish) && Wt.Publishable(Wt.Published(t.workspaces[a].mode, Wt.DirOf(t, a))))
  {
    MadeForTheCall(s, a, build);
    var s1 := WithWorkspace(s, a, build).0;
    Wr.ToolConfined(s1, a, run.upper, run.merged);
    Wt.CommitPublishes(Ws.ToolStep(s1, a, run.upper, run.merged), a, finish);
  }
}
