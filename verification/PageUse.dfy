/**
 * What the fields of a page say about the run so far: who pinned it, how often and when it was used,
 * and what sharing it saved; and that eviction goes by exactly that.
 */
module PageUse {
  import opened Prelude
  import opened CvmModel
  import opened CvmIndex
  import opened CvmBytes
  import opened CvmLedger
  import opened CvmRefinement

  // ----- pins -----

  ghost predicate LiveAndPinned(s: State, id: PageId) {
    id in s.pages && s.pages[id].pinned
  }

  /** A call pins the page it is asked to pin, unpins none and drops no pinned one. */
  lemma CallKeepsPins(c: Codec, s: State, call: Call, now: int, id: PageId)
    requires Enabled(s, call) && id in s.pages
    ensures LiveAndPinned(s, id) ==> LiveAndPinned(Apply(c, s, call, now), id)
    ensures call == Pin(id) ==> LiveAndPinned(Apply(c, s, call, now), id)
    ensures LiveAndPinned(Apply(c, s, call, now), id) ==> LiveAndPinned(s, id) || call == Pin(id)
  {
    match call
    case Materialize(a) => ReadsOnlyCountUse(c, s, Table(s, a), now);
    case Evict(max, order) => EvictionTakesColdest(s, order, max);
    case _ =>
  }

  lemma StepKeepsPins(c: Codec, y: System, step: Step, now: int, id: PageId)
    requires Balanced(y, step) && id in y.store.pages
    ensures var t := Next(c, y, step, now).store;
      && (LiveAndPinned(y.store, id) ==> LiveAndPinned(t, id))
      && (step == Do(Pin(id)) ==> LiveAndPinned(t, id))
      && (LiveAndPinned(t, id) ==> LiveAndPinned(y.store, id) || step == Do(Pin(id)))
  {
    match step
    case Do(call) => CallKeepsPins(c, y.store, call, now, id);
    case DraftCreate(t, a, content) => CallKeepsPins(c, y.store, Create(KIND_DELTA, content), now, id);
    case DraftMount(t) => CallKeepsPins(c, y.store, Mount(y.drafts[t].agent, y.drafts[t].id), now, id);
  }

  /** A page pinned while live stays live and pinned for the rest of the run. */
  lemma {:induction false} PinnedPagesStay(c: Codec, run: seq<System>, steps: seq<(Step, int)>, i: nat, k: nat, id: PageId)
    requires BalancedRun(c, run, steps) && i < k <= |steps|
    requires steps[i].0 == Do(Pin(id)) && id in run[i].store.pages
    ensures id in run[k].store.pages && run[k].store.pages[id].pinned
  {
    if k - 1 > i { PinnedPagesStay(c, run, steps, i, k - 1, id); }
    StepKeepsPins(c, run[k - 1], steps[k - 1].0, steps[k - 1].1, id);
  }

  /** One of the first `k` steps pinned the page while it was live. */
  ghost predicate WasPinned(run: seq<System>, steps: seq<(Step, int)>, k: nat, id: PageId)
    requires k <= |steps| && k < |run|
  {
    exists i :: 0 <= i < k && steps[i].0 == Do(Pin(id)) && id in run[i].store.pages
  }

  /** Only a create brings pages. */
  lemma OnlyCreateAdds(c: Codec, s: State, call: Call, now: int)
    requires Enabled(s, call) && !call.Create?
    ensures Apply(c, s, call, now).pages.Keys <= s.pages.Keys
  {
    match call
    case Materialize(a) => ReadsOnlyCountUse(c, s, Table(s, a), now);
    case Evict(max, order) => EvictionTakesColdest(s, order, max);
    case _ =>
  }

  lemma NewPageIsPlain(c: Codec, y: System, step: Step, now: int, id: PageId)
    requires Balanced(y, step) && id !in y.store.pages && id in Next(c, y, step, now).store.pages
    ensures var p := Next(c, y, step, now).store.pages[id]; !p.pinned && p.accessCount == 1 && p.lastAccess == now
  {
    match step
    case Do(call) => if !call.Create? { OnlyCreateAdds(c, y.store, call, now); }
    case _ =>
  }

  /** The flag is set on exactly the pages that were pinned, and those never go. */
  lemma {:induction false} PinnedIffAsked(c: Codec, run: seq<System>, steps: seq<(Step, int)>, k: nat, id: PageId)
    requires BalancedRun(c, run, steps) && k <= |steps|
    ensures WasPinned(run, steps, k, id) <==> id in run[k].store.pages && run[k].store.pages[id].pinned
  {
    if WasPinned(run, steps, k, id) {
      var i :| 0 <= i < k && steps[i].0 == Do(Pin(id)) && id in run[i].store.pages;
      PinnedPagesStay(c, run, steps, i, k, id);
    }
    if k > 0 && LiveAndPinned(run[k].store, id) {
      PinnedIffAsked(c, run, steps, k - 1, id);
      if id in run[k - 1].store.pages {
        StepKeepsPins(c, run[k - 1], steps[k - 1].0, steps[k - 1].1, id);
      } else {
        NewPageIsPlain(c, run[k - 1], steps[k - 1].0, steps[k - 1].1, id);
      }
    }
  }

  // ----- births -----

  /** The step that brought the page, the last one before which it was not there. */
  ghost function Birth(run: seq<System>, k: nat, id: PageId): nat
    requires 0 < k < |run|
    ensures Birth(run, k, id) < k
  {
    if k == 1 || id !in run[k - 1].store.pages then k - 1 else Birth(run, k - 1, id)
  }

  /** The kind a step gives to a page it brings. */
  function KindGiven(step: Step): string {
    if step.Do? && step.call.Create? then step.call.kind else "delta"
  }

  /** The step creates this page, as a delta or as some kind. */
  predicate Brings(c: Codec, step: Step, id: PageId) {
    match step
    case Do(call) => call.Create? && call.kind != "" && c.hash(call.content) == id
    case DraftCreate(_, _, content) => c.hash(content) == id
    case DraftMount(_) => false
  }

  lemma NewPageIsBrought(c: Codec, y: System, step: Step, now: int, id: PageId)
    requires Balanced(y, step) && id !in y.store.pages && id in Next(c, y, step, now).store.pages
    ensures var p := Next(c, y, step, now).store.pages[id]; Brings(c, step, id) && p.kind == KindGiven(step) && p.createdAt == now
  {
    match step
    case Do(call) => if !call.Create? { OnlyCreateAdds(c, y.store, call, now); }
    case _ =>
  }

  predicate SameBirth(p: Page, q: Page) {
    q.kind == p.kind && q.createdAt == p.createdAt
  }

  lemma InPlaceKeepsBirth(c: Codec, s: State, call: Call, now: int, id: PageId)
    requires call.Create? || call.Mount? || call.Touch? || call.Pin? || call.Release?
    requires id in s.pages
    ensures id in Apply(c, s, call, now).pages && SameBirth(s.pages[id], Apply(c, s, call, now).pages[id])
  {
  }

  lemma CallKeepsBirth(c: Codec, s: State, call: Call, now: int, id: PageId)
    requires Enabled(s, call) && id in s.pages && id in Apply(c, s, call, now).pages
    ensures SameBirth(s.pages[id], Apply(c, s, call, now).pages[id])
  {
    match call
    case Materialize(a) => ReadsOnlyCountUse(c, s, Table(s, a), now);
    case Evict(max, order) => EvictionTakesColdest(s, order, max);
    case Compress(_) =>
    case _ => InPlaceKeepsBirth(c, s, call, now, id);
  }

  lemma StepKeepsBirth(c: Codec, y: System, step: Step, now: int, id: PageId)
    requires Balanced(y, step) && id in y.store.pages && id in Next(c, y, step, now).store.pages
    ensures SameBirth(y.store.pages[id], Next(c, y, step, now).store.pages[id])
  {
    match step
    case Do(call) => CallKeepsBirth(c, y.store, call, now, id);
    case DraftCreate(t, a, content) => CallKeepsBirth(c, y.store, Create(KIND_DELTA, content), now, id);
    case DraftMount(t) => CallKeepsBirth(c, y.store, Mount(y.drafts[t].agent, y.drafts[t].id), now, id);
  }

  /** A page keeps the kind and the time it was created with, whoever creates the same content again as whatever kind. */
  lemma {:induction false} BornInEveryRun(c: Codec, run: seq<System>, steps: seq<(Step, int)>, k: nat, id: PageId)
    requires BalancedRun(c, run, steps) && 0 < k <= |steps| && id in run[k].store.pages
    ensures var p, (step, time) := run[k].store.pages[id], steps[Birth(run, k, id)];
      Brings(c, step, id) && p.kind == KindGiven(step) && p.createdAt == time
  {
    if k == 1 || id !in run[k - 1].store.pages {
      NewPageIsBrought(c, run[k - 1], steps[k - 1].0, steps[k - 1].1, id);
    } else {
      BornInEveryRun(c, run, steps, k - 1, id);
      StepKeepsBirth(c, run[k - 1], steps[k - 1].0, steps[k - 1].1, id);
    }
  }

  // ----- uses -----

  /** Whether a call is a use of the page: a touch, a mount that adds it to a table, or a read of a table it is in. */
  predicate IsUse(s: State, call: Call, id: PageId) {
    match call
    case Touch(p) => p == id
    case Mount(a, p) => p == id && id !in Table(s, a)
    case Materialize(a) => id in Table(s, a)
    case _ => false
  }

  predicate Uses(y: System, step: Step, id: PageId) {
    match step
    case Do(call) => IsUse(y.store, call, id)
    case DraftCreate(_, _, _) => false
    case DraftMount(t) => t in y.drafts && IsUse(y.store, Mount(y.drafts[t].agent, y.drafts[t].id), id)
  }

  /** How often the page was used since the step that brought it, that one included. */
  ghost function UseCount(run: seq<System>, steps: seq<(Step, int)>, k: nat, id: PageId): nat
    requires 0 < k <= |steps| && k < |run|
  {
    if k == 1 || id !in run[k - 1].store.pages then 1
    else UseCount(run, steps, k - 1, id) + if Uses(run[k - 1], steps[k - 1].0, id) then 1 else 0
  }

  /** The time of the last use. */
  ghost function LastUse(run: seq<System>, steps: seq<(Step, int)>, k: nat, id: PageId): int
    requires 0 < k <= |steps| && k < |run|
  {
    if k == 1 || id !in run[k - 1].store.pages || Uses(run[k - 1], steps[k - 1].0, id) then steps[k - 1].1
    else LastUse(run, steps, k - 1, id)
  }

  /** `q` is `p` after one use more at time `now`, or after none. */
  ghost predicate UsedOnce(p: Page, q: Page, used: bool, now: int) {
    q.accessCount == p.accessCount + (if used then 1 else 0) && q.lastAccess == if used then now else p.lastAccess
  }

  /** A read to the end uses each page of a duplicate-free list once. */
  lemma {:induction false} ReadUsesEach(c: Codec, s: State, ids: seq<PageId>, now: int, id: PageId)
    requires NoDup(ids) && id in s.pages
    requires forall x :: x in ids ==> x in s.pages && Decode(c, s.pages[x]).Some?
    ensures var t := ReadPages(c, s, ids, now).0; id in t.pages && UsedOnce(s.pages[id], t.pages[id], id in ids, now)
    decreases |ids|
  {
    if ids != [] {
      assert ids[0] in ids;
      var s1 := s.(pages := s.pages[ids[0] := TouchedPage(s.pages[ids[0]], now)]);
      assert forall x :: x in ids[1..] ==> x in ids;
      assert ids[0] !in ids[1..];
      ReadUsesEach(c, s1, ids[1..], now, id);
    }
  }

  lemma MaterializeCountsUses(c: Codec, y: System, m: Simple, a: AgentId, now: int, id: PageId)
    requires Ledger(y) && Refines(c, y, m) && id in y.store.pages
    ensures var t := MaterializeStep(c, y.store, a, now).0;
      id in t.pages && UsedOnce(y.store.pages[id], t.pages[id], id in Table(y.store, a), now)
  {
    forall x | x in Table(y.store, a)
      ensures x in y.store.pages && Decode(c, y.store.pages[x]).Some?
    {
      assert Holds(c, y.store.pages[x], m.names[x]);
    }
    ReadUsesEach(c, y.store, Table(y.store, a), now, id);
  }

  lemma CallCountsUses(c: Codec, s: State, call: Call, now: int, id: PageId)
    requires Enabled(s, call) && !call.Materialize? && id in s.pages && id in Apply(c, s, call, now).pages
    ensures UsedOnce(s.pages[id], Apply(c, s, call, now).pages[id], IsUse(s, call, id), now)
  {
    if call.Evict? { EvictionTakesColdest(s, call.order, call.maxBytes); }
  }

  lemma StepCountsUses(c: Codec, y: System, m: Simple, step: Step, now: int, id: PageId)
    requires Ledger(y) && Refines(c, y, m) && Balanced(y, step)
    requires id in y.store.pages && id in Next(c, y, step, now).store.pages
    ensures UsedOnce(y.store.pages[id], Next(c, y, step, now).store.pages[id], Uses(y, step, id), now)
  {
    match step
    case DraftCreate(t, a, content) => CallCountsUses(c, y.store, Create(KIND_DELTA, content), now, id);
    case DraftMount(t) => CallCountsUses(c, y.store, Mount(y.drafts[t].agent, y.drafts[t].id), now, id);
    case Do(call) =>
      if call.Materialize? {
        MaterializeCountsUses(c, y, m, call.agent, now, id);
      } else {
        CallCountsUses(c, y.store, call, now, id);
      }
  }

  lemma UsedInRun(c: Codec, run: seq<System>, steps: seq<(Step, int)>, k: nat, id: PageId)
    requires Sound(c) && BalancedRun(c, run, steps) && k < |steps| && id in run[k].store.pages && id in run[k + 1].store.pages
    ensures UsedOnce(run[k].store.pages[id], run[k + 1].store.pages[id], Uses(run[k], steps[k].0, id), steps[k].1)
  {
    LedgerInEveryRun(c, run, steps, k);
    RefinementInEveryRun(c, run, steps, k);
    StepCountsUses(c, run[k], SimpleRun(c, run, steps, k), steps[k].0, steps[k].1, id);
  }

  /** In every balanced run the access count of a page is the number of its uses, its access time that of the last. */
  lemma {:induction false} UsesCountedInEveryRun(c: Codec, run: seq<System>, steps: seq<(Step, int)>, k: nat, id: PageId)
    requires Sound(c) && BalancedRun(c, run, steps) && k <= |steps| && id in run[k].store.pages
    ensures k > 0
    ensures run[k].store.pages[id].accessCount == UseCount(run, steps, k, id)
    ensures run[k].store.pages[id].lastAccess == LastUse(run, steps, k, id)
  {
    if k > 0 {
      if id in run[k - 1].store.pages {
        UsesCountedInEveryRun(c, run, steps, k - 1, id);
        UsedInRun(c, run, steps, k - 1, id);
      } else {
        NewPageIsPlain(c, run[k - 1], steps[k - 1].0, steps[k - 1].1, id);
      }
    }
  }

  // ----- eviction over runs -----

  /** Nobody mounts the page or holds a reference to it, and nobody ever pinned it. */
  ghost predicate Unclaimed(run: seq<System>, steps: seq<(Step, int)>, k: nat, id: PageId)
    requires k <= |steps| && k < |run|
  {
    Holders(run[k], id) == 0 && !WasPinned(run, steps, k, id)
  }

  lemma UnclaimedIffEvictable(c: Codec, run: seq<System>, steps: seq<(Step, int)>, k: nat, id: PageId)
    requires BalancedRun(c, run, steps) && k <= |steps| && id in run[k].store.pages
    ensures Unclaimed(run, steps, k, id) <==> run[k].store.pages[id].refCount == 0 && !run[k].store.pages[id].pinned
  {
    LedgerInEveryRun(c, run, steps, k);
    PinnedIffAsked(c, run, steps, k, id);
  }

  /**
   * An eviction at any point of any balanced run meets its budget, if it has one, or leaves only claimed pages. What it takes is
   * unclaimed, and was used in that run less often than any unclaimed page it leaves, or as often but longer ago.
   */
  lemma EvictsLeastUsedInEveryRun(c: Codec, run: seq<System>, steps: seq<(Step, int)>, k: nat, order: seq<PageId>, maxBytes: int)
    requires Sound(c) && BalancedRun(c, run, steps) && 0 < k <= |steps| && EvictionOrder(run[k].store, order)
    ensures var s, t := run[k].store.pages, EvictStep(run[k].store, order, maxBytes).0.pages;
      && (maxBytes < 0 ==> t == s)
      && (maxBytes < 0 || TotalResident(t) <= maxBytes || forall id :: id in t ==> !Unclaimed(run, steps, k, id))
      && (forall v :: v in s && v !in t ==> Unclaimed(run, steps, k, v))
      && (forall v, q :: v in s && v !in t && q in t && Unclaimed(run, steps, k, q) ==>
            || UseCount(run, steps, k, v) < UseCount(run, steps, k, q)
            || (UseCount(run, steps, k, v) == UseCount(run, steps, k, q) && LastUse(run, steps, k, v) <= LastUse(run, steps, k, q)))
  {
    EvictionTakesColdest(run[k].store, order, maxBytes);
    forall id | id in run[k].store.pages
      ensures Unclaimed(run, steps, k, id) <==> run[k].store.pages[id].refCount == 0 && !run[k].store.pages[id].pinned
      ensures run[k].store.pages[id].accessCount == UseCount(run, steps, k, id)
      ensures run[k].store.pages[id].lastAccess == LastUse(run, steps, k, id)
    {
      UnclaimedIffEvictable(c, run, steps, k, id);
      UsesCountedInEveryRun(c, run, steps, k, id);
    }
  }

  /**
   * Compression at any point of any balanced run takes exactly the plain, never pinned pages with a text that were
   * used at most `maxAccess` times, or once where that is less, and leaves the shorter of gzip form and text of them.
   */
  lemma CompressesLeastUsedInEveryRun(c: Codec, run: seq<System>, steps: seq<(Step, int)>, k: nat, id: PageId, maxAccess: int, now: int)
    requires Sound(c) && BalancedRun(c, run, steps) && 0 < k <= |steps| && id in run[k].store.pages
    ensures id in SimpleRun(c, run, steps, k).names && id in CompressStep(c, run[k].store, maxAccess, now).0.pages
    ensures var p, q := run[k].store.pages[id], CompressStep(c, run[k].store, maxAccess, now).0.pages[id];
      var text, uses := SimpleRun(c, run, steps, k).names[id], UseCount(run, steps, k, id);
      if !p.compressed && !WasPinned(run, steps, k, id) && text != [] && (uses <= maxAccess || uses == 1)
      then q.compressed && ResidentBytes(q) == if |c.gzip(text)| < |text| then |c.gzip(text)| else |text|
      else q == p
  {
    UsesCountedInEveryRun(c, run, steps, k, id);
    UsedAtLeastOnce(run, steps, k, id);
    PinnedIffAsked(c, run, steps, k, id);
    RefinementInEveryRun(c, run, steps, k);
    CompressionOfOne(c, run[k].store, maxAccess, now, id, SimpleRun(c, run, steps, k).names[id]);
  }

  lemma {:induction false} UsedAtLeastOnce(run: seq<System>, steps: seq<(Step, int)>, k: nat, id: PageId)
    requires 0 < k <= |steps| && k < |run|
    ensures UseCount(run, steps, k, id) >= 1
  {
    if k > 1 { UsedAtLeastOnce(run, steps, k - 1, id); }
  }

  lemma CompressionOfOne(c: Codec, s: State, maxAccess: int, now: int, id: PageId, text: Bytes)
    requires id in s.pages && Holds(c, s.pages[id], text) && s.pages[id].accessCount >= 1
    ensures var p, t := s.pages[id], CompressStep(c, s, maxAccess, now).0;
      && id in t.pages
      && if !p.compressed && !p.pinned && text != [] && (p.accessCount <= maxAccess || p.accessCount == 1)
         then t.pages[id].compressed && ResidentBytes(t.pages[id]) == if |c.gzip(text)| < |text| then |c.gzip(text)| else |text|
         else t.pages[id] == p
  {
  }

  // ----- what sharing saves -----

  /** The text a step did not have to store again: one created while there, or mounted while more than one holds it. */
  ghost function Spared(c: Codec, y: System, m: Simple, step: Step): Option<Bytes>
    requires forall id :: id in y.store.pages ==> id in m.names
  {
    match step
    case Do(Create(kind, content)) => if kind != "" && c.hash(content) in y.store.pages then Some(content) else None
    case Do(Mount(a, id)) => SparedByMount(y, m, a, id)
    case DraftCreate(_, _, content) => if c.hash(content) in y.store.pages then Some(content) else None
    case DraftMount(t) => if t in y.drafts then SparedByMount(y, m, y.drafts[t].agent, y.drafts[t].id) else None
    case _ => None
  }

  ghost function SparedByMount(y: System, m: Simple, a: AgentId, id: PageId): Option<Bytes>
    requires forall id :: id in y.store.pages ==> id in m.names
  {
    if id in y.store.pages && id !in Table(y.store, a) && Holders(y, id) > 1 then Some(m.names[id]) else None
  }

  /** `t` counts the spared text on top of what `s` counts. */
  ghost predicate Counts(c: Codec, s: State, t: State, spared: Option<Bytes>) {
    && t.savedBytes == s.savedBytes + (if spared.Some? then |spared.value| else 0)
    && t.savedTokens == s.savedTokens + (if spared.Some? then TokensOf(c, spared.value) else 0)
  }

  /** A token is taken to be four runes; a text is at least one. */
  function TokensOf(c: Codec, text: Bytes): nat {
    if c.runes(text) >= 4 then c.runes(text) / 4 else if text == [] then 0 else 1
  }

  lemma CreateCountsSpared(c: Codec, y: System, m: Simple, kind: string, content: Bytes, now: int)
    requires Sound(c) && Refines(c, y, m)
    ensures Counts(c, y.store, CreateStep(c, y.store, kind, content, now).0, Spared(c, y, m, Do(Create(kind, content))))
  {
    if c.hash(content) in y.store.pages {
      assert Holds(c, y.store.pages[c.hash(content)], m.names[c.hash(content)]);
      assert m.names[c.hash(content)] == content;
    }
  }

  lemma MountCountsSpared(c: Codec, y: System, m: Simple, a: AgentId, id: PageId, now: int)
    requires Ledger(y) && Refines(c, y, m)
    ensures Counts(c, y.store, MountStep(y.store, a, id, now).0, SparedByMount(y, m, a, id))
  {
    if id in y.store.pages { assert Holds(c, y.store.pages[id], m.names[id]); }
  }

  /** Every other call leaves both counters alone. */
  lemma CallSparesNothing(c: Codec, s: State, call: Call, now: int)
    requires Enabled(s, call) && !call.Create? && !call.Mount?
    ensures Counts(c, s, Apply(c, s, call, now), None)
  {
    match call
    case Materialize(a) => ReadsOnlyCountUse(c, s, Table(s, a), now);
    case Evict(max, order) => if max >= 0 { EvictionMeetsBudget(s, order, max); }
    case _ =>
  }

  lemma StepCountsSpared(c: Codec, y: System, m: Simple, step: Step, now: int)
    requires Sound(c) && Ledger(y) && Refines(c, y, m) && Balanced(y, step)
    ensures Counts(c, y.store, Next(c, y, step, now).store, Spared(c, y, m, step))
  {
    match step
    case DraftCreate(t, a, content) => CreateCountsSpared(c, y, m, KIND_DELTA, content, now);
    case DraftMount(t) => MountCountsSpared(c, y, m, y.drafts[t].agent, y.drafts[t].id, now);
    case Do(call) =>
      match call {
        case Create(kind, content) => CreateCountsSpared(c, y, m, kind, content, now);
        case Mount(a, id) => MountCountsSpared(c, y, m, a, id, now);
        case _ => CallSparesNothing(c, y.store, call, now);
      }
  }

  ghost function SparedAt(c: Codec, run: seq<System>, steps: seq<(Step, int)>, k: nat): Option<Bytes>
    requires Sound(c) && BalancedRun(c, run, steps) && k < |steps|
  {
    RefinementInEveryRun(c, run, steps, k);
    Spared(c, run[k], SimpleRun(c, run, steps, k), steps[k].0)
  }

  function Listed(text: Option<Bytes>): seq<Bytes> {
    if text.Some? then [text.value] else []
  }

  /** The texts spared by the first `k` steps. */
  ghost function EverSpared(c: Codec, run: seq<System>, steps: seq<(Step, int)>, k: nat): seq<Bytes>
    requires Sound(c) && BalancedRun(c, run, steps) && k <= |steps|
  {
    if k == 0 then [] else EverSpared(c, run, steps, k - 1) + Listed(SparedAt(c, run, steps, k - 1))
  }

  function TotalLength(texts: seq<Bytes>): nat {
    if texts == [] then 0 else TotalLength(texts[..|texts| - 1]) + |texts[|texts| - 1]|
  }

  function TotalTokens(c: Codec, texts: seq<Bytes>): nat {
    if texts == [] then 0 else TotalTokens(c, texts[..|texts| - 1]) + TokensOf(c, texts[|texts| - 1])
  }

  lemma OneMoreText(c: Codec, texts: seq<Bytes>, text: Option<Bytes>)
    ensures TotalLength(texts + Listed(text)) == TotalLength(texts) + if text.Some? then |text.value| else 0
    ensures TotalTokens(c, texts + Listed(text)) == TotalTokens(c, texts) + if text.Some? then TokensOf(c, text.value) else 0
  {
    if text.Some? {
      assert (texts + [text.value])[..|texts|] == texts;
    } else {
      assert texts + [] == texts;
    }
  }

  lemma SparedInRun(c: Codec, run: seq<System>, steps: seq<(Step, int)>, k: nat)
    requires Sound(c) && BalancedRun(c, run, steps) && k < |steps|
    ensures Counts(c, run[k].store, run[k + 1].store, SparedAt(c, run, steps, k))
  {
    LedgerInEveryRun(c, run, steps, k);
    RefinementInEveryRun(c, run, steps, k);
    StepCountsSpared(c, run[k], SimpleRun(c, run, steps, k), steps[k].0, steps[k].1);
  }

  /** In every balanced run the savings reported are the bytes and tokens of the texts that sharing spared. */
  lemma {:induction false} SavingsInEveryRun(c: Codec, run: seq<System>, steps: seq<(Step, int)>, k: nat)
    requires Sound(c) && BalancedRun(c, run, steps) && k <= |steps|
    ensures run[k].store.savedBytes == TotalLength(EverSpared(c, run, steps, k))
    ensures run[k].store.savedTokens == TotalTokens(c, EverSpared(c, run, steps, k))
  {
    if k > 0 {
      SavingsInEveryRun(c, run, steps, k - 1);
      SparedInRun(c, run, steps, k - 1);
      OneMoreText(c, EverSpared(c, run, steps, k - 1), SparedAt(c, run, steps, k - 1));
    }
  }
}
