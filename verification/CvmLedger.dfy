/**
 * Balanced clients: every release gives back a create handle or a mount. Threads interleave at
 * lock-region granularity, so a delta write is two steps with anything in between.
 */
module CvmLedger {
  import opened Prelude
  import opened CvmModel
  import opened CvmIndex
  import opened CvmBytes

  type Thread = nat

  /** A delta write between its create and its mount. */
  datatype Draft = Draft(agent: AgentId, id: PageId)

  /** The store with the references its clients hold: open create handles and delta writes in flight. */
  datatype System = System(store: State, handles: multiset<PageId>, drafts: map<Thread, Draft>)

  const EMPTY_SYSTEM := System(EMPTY_STORE, multiset{}, map[])

  datatype Step =
    | Do(call: Call)
    | DraftCreate(thread: Thread, agent: AgentId, content: Bytes)
    | DraftMount(thread: Thread)

  /** The discipline: "" releases consume a handle, agent releases a mount. */
  ghost predicate Balanced(y: System, step: Step) {
    match step
    case Do(call) =>
      && Enabled(y.store, call)
      && (call.Release? ==>
            if call.agent == "" then call.id in y.handles else call.id in Table(y.store, call.agent))
    case DraftCreate(t, _, _) => t !in y.drafts
    case DraftMount(t) => t in y.drafts
  }

  ghost function Next(c: Codec, y: System, step: Step, now: int): System
    requires Balanced(y, step)
  {
    match step
    case Do(call) =>
      var store := Apply(c, y.store, call, now);
      var handles :=
        if call.Create? && call.kind != "" then y.handles + multiset{c.hash(call.content)}
        else if call.Release? && call.agent == "" then y.handles - multiset{call.id}
        else y.handles;
      y.(store := store, handles := handles)
    case DraftCreate(t, a, content) =>
      y.(store := CreateStep(c, y.store, KIND_DELTA, content, now).0,
         drafts := y.drafts[t := Draft(a, c.hash(content))])
    case DraftMount(t) =>
      y.(store := MountStep(y.store, y.drafts[t].agent, y.drafts[t].id, now).0,
         handles := y.handles + multiset{y.drafts[t].id},
         drafts := y.drafts - {t})
  }

  // ----- the reference ledger -----

  ghost function Mounters(tables: map<AgentId, seq<PageId>>, id: PageId): set<AgentId> {
    set a | a in tables && id in tables[a]
  }

  ghost function DraftsOn(drafts: map<Thread, Draft>, id: PageId): set<Thread> {
    set t | t in drafts && drafts[t].id == id
  }

  /** Open handles, delta writes in flight and page tables that hold `id`. */
  ghost function Holders(y: System, id: PageId): nat {
    y.handles[id] + |DraftsOn(y.drafts, id)| + |Mounters(y.store.tables, id)|
  }

  ghost predicate CountsExact(y: System) {
    forall id :: id in y.store.pages ==> y.store.pages[id].refCount == Holders(y, id)
  }

  ghost predicate HeldLive(y: System) {
    && (forall id :: id in y.handles ==> id in y.store.pages)
    && (forall t :: t in y.drafts ==> y.drafts[t].id in y.store.pages)
  }

  ghost predicate Counted(y: System) {
    TablesLive(y.store) && CountsExact(y) && HeldLive(y)
  }

  /** What balanced clients keep, on top of the index. */
  ghost predicate Ledger(y: System) {
    Indexed(y.store) && CountsExact(y) && HeldLive(y)
  }

  lemma StepKeepsIndex(c: Codec, y: System, step: Step, now: int)
    requires Indexed(y.store) && Balanced(y, step)
    ensures Indexed(Next(c, y, step, now).store)
  {
    match step
    case Do(call) => ApplyKeepsIndex(c, y.store, call, now);
    case DraftCreate(t, a, content) => CreateKeepsIndex(c, y.store, KIND_DELTA, content, now);
    case DraftMount(t) => MountKeepsIndex(y.store, y.drafts[t].agent, y.drafts[t].id, now);
  }

  /** A page nobody knows of has no holder. */
  lemma NoHolderUnlessLive(y: System, id: PageId)
    requires Counted(y) && id !in y.store.pages
    ensures Holders(y, id) == 0
  {
    assert DraftsOn(y.drafts, id) == {};
    assert Mounters(y.store.tables, id) == {};
  }

  /** Steps that neither take nor give back a reference. */
  lemma QuietKeepsCounts(y: System, store: State)
    requires CountsExact(y) && HeldLive(y)
    requires store.tables == y.store.tables && store.pages.Keys == y.store.pages.Keys
    requires forall id :: id in store.pages ==> store.pages[id].refCount == y.store.pages[id].refCount
    ensures CountsExact(y.(store := store)) && HeldLive(y.(store := store))
  {
    var z := y.(store := store);
    forall id | id in store.pages
      ensures store.pages[id].refCount == Holders(z, id)
    {
      assert y.store.pages[id].refCount == Holders(y, id);
    }
  }

  lemma CreateCounts(c: Codec, y: System, kind: string, content: Bytes, now: int, id: PageId)
    requires Counted(y) && kind != "" && id in CreateStep(c, y.store, kind, content, now).0.pages
    ensures CreateStep(c, y.store, kind, content, now).0.pages[id].refCount
         == Holders(y, id) + if id == c.hash(content) then 1 else 0
  {
    if id !in y.store.pages {
      NoHolderUnlessLive(y, id);
    } else {
      assert y.store.pages[id].refCount == Holders(y, id);
    }
  }

  lemma CreateKeepsCounts(c: Codec, y: System, kind: string, content: Bytes, now: int)
    requires Counted(y)
    ensures var z := Next(c, y, Do(Create(kind, content)), now); CountsExact(z) && HeldLive(z)
  {
    var z := Next(c, y, Do(Create(kind, content)), now);
    if kind != "" {
      forall id | id in z.store.pages
        ensures z.store.pages[id].refCount == Holders(z, id)
      {
        CreateCounts(c, y, kind, content, now, id);
      }
    } else {
      assert z == y;
    }
  }

  lemma DraftsGrow(drafts: map<Thread, Draft>, t: Thread, d: Draft, id: PageId)
    requires t !in drafts
    ensures |DraftsOn(drafts[t := d], id)| == |DraftsOn(drafts, id)| + if d.id == id then 1 else 0
  {
    assert DraftsOn(drafts[t := d], id) == DraftsOn(drafts, id) + if d.id == id then {t} else {};
  }

  lemma DraftsShrink(drafts: map<Thread, Draft>, t: Thread, id: PageId)
    requires t in drafts
    ensures |DraftsOn(drafts - {t}, id)| == |DraftsOn(drafts, id)| - if drafts[t].id == id then 1 else 0
  {
    DraftsGrow(drafts - {t}, t, drafts[t], id);
    assert (drafts - {t})[t := drafts[t]] == drafts;
  }

  /** Replacing one agent's table moves that agent in or out of the holders of a page. */
  lemma MountersChange(s: State, a: AgentId, ids: seq<PageId>, id: PageId)
    ensures |Mounters(s.tables[a := ids], id)|
         == |Mounters(s.tables, id)| - (if id in Table(s, a) then 1 else 0) + (if id in ids then 1 else 0)
  {
    var before, after := Mounters(s.tables, id), Mounters(s.tables[a := ids], id);
    assert after - {a} == before - {a};
    assert a in after <==> id in ids;
    assert a in before <==> id in Table(s, a);
    assert |after - {a}| == |after| - if a in after then 1 else 0;
    assert |before - {a}| == |before| - if a in before then 1 else 0;
  }

  lemma DraftCreateKeepsCounts(c: Codec, y: System, t: Thread, a: AgentId, content: Bytes, now: int)
    requires Counted(y) && t !in y.drafts
    ensures var z := Next(c, y, DraftCreate(t, a, content), now); CountsExact(z) && HeldLive(z)
  {
    var z := Next(c, y, DraftCreate(t, a, content), now);
    forall id | id in z.store.pages
      ensures z.store.pages[id].refCount == Holders(z, id)
    {
      CreateCounts(c, y, KIND_DELTA, content, now, id);
      DraftsGrow(y.drafts, t, Draft(a, c.hash(content)), id);
    }
  }

  lemma MountKeepsCounts(y: System, a: AgentId, id: PageId, now: int)
    requires CountsExact(y) && HeldLive(y)
    ensures var z := y.(store := MountStep(y.store, a, id, now).0); CountsExact(z) && HeldLive(z)
  {
    if id in y.store.pages && id !in Table(y.store, a) {
      var z := y.(store := MountStep(y.store, a, id, now).0);
      forall p | p in z.store.pages
        ensures z.store.pages[p].refCount == Holders(z, p)
      {
        assert y.store.pages[p].refCount == Holders(y, p);
        MountersChange(y.store, a, Table(y.store, a) + [id], p);
      }
    }
  }

  lemma DraftMountKeepsCounts(c: Codec, y: System, t: Thread, now: int)
    requires CountsExact(y) && HeldLive(y) && t in y.drafts
    ensures var z := Next(c, y, DraftMount(t), now); CountsExact(z) && HeldLive(z)
  {
    var z := Next(c, y, DraftMount(t), now);
    var mid := y.(store := z.store);
    MountKeepsCounts(y, y.drafts[t].agent, y.drafts[t].id, now);
    assert CountsExact(mid) && HeldLive(mid);
    forall p | p in z.store.pages
      ensures z.store.pages[p].refCount == Holders(z, p)
    {
      assert z.store.pages[p].refCount == Holders(mid, p);
      DraftsShrink(y.drafts, t, p);
    }
  }

  lemma ReleaseKeepsCounts(c: Codec, y: System, a: AgentId, id: PageId, now: int)
    requires Counted(y) && Balanced(y, Do(Release(a, id)))
    ensures var z := Next(c, y, Do(Release(a, id)), now); CountsExact(z) && HeldLive(z)
  {
    var z := Next(c, y, Do(Release(a, id)), now);
    assert z.store == ReleaseStep(y.store, a, id, now).0;
    assert id in y.store.pages && Holders(y, id) > 0 by {
      if a != "" { assert a in Mounters(y.store.tables, id); }
    }
    assert z.store.pages.Keys == y.store.pages.Keys;
    forall p | p in z.store.pages
      ensures z.store.pages[p].refCount == Holders(z, p)
    {
      assert y.store.pages[p].refCount == Holders(y, p);
      ReleaseMovesHolders(y, z, a, id, p);
    }
  }

  lemma ReleaseMovesHolders(y: System, z: System, a: AgentId, id: PageId, p: PageId)
    requires if a == "" then id in y.handles else id in Table(y.store, a)
    requires z.drafts == y.drafts
    requires z.handles == if a == "" then y.handles - multiset{id} else y.handles
    requires z.store.tables == if a == "" then y.store.tables else y.store.tables[a := Without(Table(y.store, a), id)]
    ensures Holders(z, p) == Holders(y, p) - if p == id then 1 else 0
  {
    if a != "" {
      MountersChange(y.store, a, Without(Table(y.store, a), id), p);
    }
  }

  /** A page that anyone mounts or holds is not evictable. */
  lemma CandidatesUnheld(y: System, id: PageId)
    requires Counted(y) && id in y.store.pages && Evictable(y.store.pages[id])
    ensures id !in y.handles && DraftsOn(y.drafts, id) == {} && Mounters(y.store.tables, id) == {}
  {
    assert Holders(y, id) == 0;
  }

  lemma CandidateUnlisted(y: System, id: PageId, a: AgentId)
    requires Counted(y) && id in y.store.pages && Evictable(y.store.pages[id]) && a in y.store.tables
    ensures id !in y.store.tables[a]
  {
    CandidatesUnheld(y, id);
    assert a !in Mounters(y.store.tables, id);
  }

  /** So eviction scrubs no table. */
  lemma EvictionSparesTables(y: System, order: seq<PageId>, maxBytes: int)
    requires Counted(y) && EvictionOrder(y.store, order)
    ensures EvictStep(y.store, order, maxBytes).0.tables == y.store.tables
  {
    if maxBytes >= 0 {
      EvictionMeetsBudget(y.store, order, maxBytes);
      var (t, n, _) := EvictStep(y.store, order, maxBytes);
      forall a | a in y.store.tables
        ensures t.tables[a] == y.store.tables[a]
      {
        forall id | id in order[..n]
          ensures id !in y.store.tables[a]
        {
          assert id in order;
          CandidateUnlisted(y, id, a);
        }
      }
    }
  }

  lemma EvictKeepsCounts(y: System, order: seq<PageId>, maxBytes: int)
    requires Counted(y) && EvictionOrder(y.store, order)
    ensures var z := y.(store := EvictStep(y.store, order, maxBytes).0); CountsExact(z) && HeldLive(z)
  {
    if maxBytes >= 0 {
      EvictionSparesTables(y, order, maxBytes);
      EvictionTakesColdest(y.store, order, maxBytes);
      var t := EvictStep(y.store, order, maxBytes).0;
      var z := y.(store := t);
      forall id | id in t.pages
        ensures t.pages[id].refCount == Holders(z, id)
      {
        assert y.store.pages[id].refCount == Holders(y, id);
      }
      forall id | id in y.store.pages && id !in t.pages
        ensures id !in y.handles && DraftsOn(y.drafts, id) == {}
      {
        CandidatesUnheld(y, id);
      }
      forall r | r in y.drafts
        ensures y.drafts[r].id in t.pages
      {
        assert r in DraftsOn(y.drafts, y.drafts[r].id);
      }
    }
  }

  /** Reading, touching, pinning and compressing leave tables and reference counts alone. */
  lemma QuietCall(c: Codec, s: State, call: Call, now: int)
    requires call.Materialize? || call.Touch? || call.Pin? || call.Compress?
    ensures var t := Apply(c, s, call, now);
      && t.tables == s.tables && t.pages.Keys == s.pages.Keys
      && forall id :: id in s.pages ==> t.pages[id].refCount == s.pages[id].refCount
  {
    if call.Materialize? { ReadsOnlyCountUse(c, s, Table(s, call.agent), now); }
  }

  lemma QuietCallKeepsCounts(c: Codec, y: System, call: Call, now: int)
    requires CountsExact(y) && HeldLive(y)
    requires call.Materialize? || call.Touch? || call.Pin? || call.Compress?
    ensures var z := Next(c, y, Do(call), now); CountsExact(z) && HeldLive(z)
  {
    QuietCall(c, y.store, call, now);
    var store := Apply(c, y.store, call, now);
    QuietKeepsCounts(y, store);
    assert Next(c, y, Do(call), now) == y.(store := store);
  }

  lemma StepKeepsCounts(c: Codec, y: System, step: Step, now: int)
    requires Counted(y) && Balanced(y, step)
    ensures var z := Next(c, y, step, now); CountsExact(z) && HeldLive(z)
  {
    match step
    case DraftCreate(t, a, content) => DraftCreateKeepsCounts(c, y, t, a, content, now);
    case DraftMount(t) => DraftMountKeepsCounts(c, y, t, now);
    case Do(call) =>
      match call {
        case Create(kind, content) => CreateKeepsCounts(c, y, kind, content, now);
        case Mount(a, id) => MountKeepsCounts(y, a, id, now);
        case Release(a, id) => ReleaseKeepsCounts(c, y, a, id, now);
        case Evict(max, order) => EvictKeepsCounts(y, order, max);
        case _ => QuietCallKeepsCounts(c, y, call, now);
      }
  }

  lemma StepKeepsLedger(c: Codec, y: System, step: Step, now: int)
    requires Ledger(y) && Balanced(y, step)
    ensures Ledger(Next(c, y, step, now))
  {
    StepKeepsIndex(c, y, step, now);
    StepKeepsCounts(c, y, step, now);
  }

  // ----- balanced runs -----

  ghost predicate BalancedRun(c: Codec, run: seq<System>, steps: seq<(Step, int)>) {
    && |run| == |steps| + 1
    && run[0] == EMPTY_SYSTEM
    && forall i :: 0 <= i < |steps| ==>
         Balanced(run[i], steps[i].0) && run[i + 1] == Next(c, run[i], steps[i].0, steps[i].1)
  }

  /** In every reachable state the reference count of a live page is its number of holders. */
  lemma {:induction false} LedgerInEveryRun(c: Codec, run: seq<System>, steps: seq<(Step, int)>, k: nat)
    requires BalancedRun(c, run, steps) && k < |run|
    ensures Ledger(run[k])
  {
    if k > 0 {
      LedgerInEveryRun(c, run, steps, k - 1);
      StepKeepsLedger(c, run[k - 1], steps[k - 1].0, steps[k - 1].1);
    }
  }

  /** The mount half of a delta write succeeds, whatever ran since its create half. */
  lemma DraftMountNeverFails(c: Codec, run: seq<System>, steps: seq<(Step, int)>, k: nat, t: Thread, now: int)
    requires BalancedRun(c, run, steps) && k < |run| && t in run[k].drafts
    ensures MountStep(run[k].store, run[k].drafts[t].agent, run[k].drafts[t].id, now).1 == Ok(())
    ensures run[k].drafts[t].id in Table(Next(c, run[k], DraftMount(t), now).store, run[k].drafts[t].agent)
  {
    LedgerInEveryRun(c, run, steps, k);
  }

  /** A live page with a holder or a pin survives every eviction of every balanced state. */
  lemma HeldPagesSurvive(c: Codec, run: seq<System>, steps: seq<(Step, int)>, k: nat, id: PageId,
                         order: seq<PageId>, maxBytes: int)
    requires BalancedRun(c, run, steps) && k < |run| && EvictionOrder(run[k].store, order)
    requires id in run[k].store.pages && (Holders(run[k], id) > 0 || run[k].store.pages[id].pinned)
    ensures id in EvictStep(run[k].store, order, maxBytes).0.pages
  {
    LedgerInEveryRun(c, run, steps, k);
    EvictionTakesColdest(run[k].store, order, maxBytes);
  }
}
