/**
 * What every step keeps with no discipline on callers: page tables hold each live page at most
 * once, the owner lists are their exact reverse index, and sizes agree with the stored data.
 */
module CvmIndex {
  import opened Prelude
  import opened CvmModel

  /** One call to the store. `order` is how the sort in eviction happened to arrange the candidates. */
  datatype Call =
    | Create(kind: string, content: Bytes)
    | Mount(agent: AgentId, id: PageId)
    | Materialize(agent: AgentId)
    | Touch(id: PageId)
    | Pin(id: PageId)
    | Release(agent: AgentId, id: PageId)
    | Compress(maxAccess: int)
    | Evict(maxBytes: int, order: seq<PageId>)

  ghost predicate Enabled(s: State, call: Call) {
    call.Evict? ==> EvictionOrder(s, call.order)
  }

  ghost function Apply(c: Codec, s: State, call: Call, now: int): State
    requires Enabled(s, call)
  {
    match call
    case Create(kind, content) => CreateStep(c, s, kind, content, now).0
    case Mount(a, id) => MountStep(s, a, id, now).0
    case Materialize(a) => MaterializeStep(c, s, a, now).0
    case Touch(id) => TouchStep(s, id, now).0
    case Pin(id) => PinStep(s, id, now).0
    case Release(a, id) => ReleaseStep(s, a, id, now).0
    case Compress(max) => CompressStep(c, s, max, now).0
    case Evict(max, order) => EvictStep(s, order, max).0
  }

  // ----- the invariant -----

  ghost predicate TablesLive(s: State) {
    forall a :: a in s.tables ==>
      NoDup(s.tables[a]) && forall id :: id in s.tables[a] ==> id in s.pages
  }

  /** The owners of `id` are the non-empty agents whose table lists it, each once. */
  ghost predicate OwnersExact(s: State) {
    forall id :: id in s.pages ==> OwnersOf(s, id, s.pages[id].owners)
  }

  ghost predicate OwnersOf(s: State, id: PageId, owners: seq<AgentId>) {
    NoDup(owners) && forall a: AgentId :: a in owners <==> a != "" && id in Table(s, a)
  }
  ghost predicate PageSized(p: Page) {
    if p.compressed then p.compressedSize == |p.data| <= p.bytes else p.bytes == |p.content|
  }

  ghost predicate AllSized(s: State) {
    forall id :: id in s.pages ==> s.pages[id].id == id && PageSized(s.pages[id])
  }

  ghost predicate Indexed(s: State) {
    TablesLive(s) && OwnersExact(s) && AllSized(s)
  }

  /** `t` has the same pages and tables as `s` as far as the index is concerned. */
  ghost predicate SameIndex(s: State, t: State) {
    && t.tables == s.tables
    && t.pages.Keys == s.pages.Keys
    && forall id :: id in s.pages ==>
         t.pages[id].owners == s.pages[id].owners && t.pages[id].id == s.pages[id].id
  }

  lemma SameIndexKeeps(s: State, t: State)
    requires Indexed(s) && SameIndex(s, t)
    ensures TablesLive(t) && OwnersExact(t)
  {
    forall a
      ensures Table(t, a) == Table(s, a)
    {
    }
  }

  lemma CreateKeepsIndex(c: Codec, s: State, kind: string, content: Bytes, now: int)
    requires Indexed(s)
    ensures Indexed(CreateStep(c, s, kind, content, now).0)
  {
    var t := CreateStep(c, s, kind, content, now).0;
    forall a
      ensures Table(t, a) == Table(s, a)
    {
    }
  }

  lemma MountKeepsIndex(s: State, a: AgentId, id: PageId, now: int)
    requires Indexed(s)
    ensures Indexed(MountStep(s, a, id, now).0)
  {
    if id in s.pages && id !in Table(s, a) {
      var t := MountStep(s, a, id, now).0;
      assert forall b :: Table(t, b) == if b == a then Table(s, a) + [id] else Table(s, b);
      forall p | p in t.pages
        ensures OwnersOf(t, p, t.pages[p].owners)
      {
        assert OwnersOf(s, p, s.pages[p].owners);
      }
      assert TablesLive(t);
    }
  }

  lemma ReleaseKeepsIndex(s: State, a: AgentId, id: PageId, now: int)
    requires Indexed(s)
    ensures Indexed(ReleaseStep(s, a, id, now).0)
  {
    var t := ReleaseStep(s, a, id, now).0;
    if id in s.pages && a != "" {
      WithoutNoDup(Table(s, a), id);
      WithoutNoDup(s.pages[id].owners, a);
      assert forall b :: Table(t, b) == if b == a then Without(Table(s, a), id) else Table(s, b);
    } else if id in s.pages {
      assert forall b :: Table(t, b) == Table(s, b);
    }
    forall p | p in t.pages
      ensures OwnersOf(t, p, t.pages[p].owners)
    {
      assert OwnersOf(s, p, s.pages[p].owners);
    }
  }

  lemma {:induction false} EvictKeepsIndex(s: State, order: seq<PageId>, maxBytes: int)
    requires Indexed(s)
    requires NoDup(order) && forall id :: id in order ==> id in s.pages
    ensures Indexed(EvictFrom(s, order, maxBytes).0)
    decreases |order|
  {
    if order != [] && TotalResident(s.pages) > maxBytes {
      var id := order[0];
      var s1 := s.(pages := s.pages - {id}, tables := Scrub(s.tables, id));
      ScrubKeepsIndex(s, id);
      EvictKeepsIndex(s1, order[1..], maxBytes);
    }
  }

  lemma ScrubKeepsIndex(s: State, id: PageId)
    requires Indexed(s) && id in s.pages
    ensures Indexed(s.(pages := s.pages - {id}, tables := Scrub(s.tables, id)))
  {
    var t := s.(pages := s.pages - {id}, tables := Scrub(s.tables, id));
    forall a | a in s.tables
      ensures NoDup(t.tables[a])
    {
      WithoutNoDup(s.tables[a], id);
    }
    forall a
      ensures Table(t, a) == Without(Table(s, a), id)
    {
    }
  }

  lemma TouchKeepsIndex(s: State, id: PageId, now: int)
    requires Indexed(s)
    ensures Indexed(TouchStep(s, id, now).0)
  {
    SameIndexKeeps(s, TouchStep(s, id, now).0);
  }

  lemma PinKeepsIndex(s: State, id: PageId, now: int)
    requires Indexed(s)
    ensures Indexed(PinStep(s, id, now).0)
  {
    SameIndexKeeps(s, PinStep(s, id, now).0);
  }

  lemma CompressKeepsIndex(c: Codec, s: State, maxAccess: int, now: int)
    requires Indexed(s)
    ensures Indexed(CompressStep(c, s, maxAccess, now).0)
  {
    SameIndexKeeps(s, CompressStep(c, s, maxAccess, now).0);
  }

  lemma MaterializeKeepsIndex(c: Codec, s: State, a: AgentId, now: int)
    requires Indexed(s)
    ensures Indexed(MaterializeStep(c, s, a, now).0)
  {
    ReadsOnlyCountUse(c, s, Table(s, a), now);
    SameIndexKeeps(s, MaterializeStep(c, s, a, now).0);
  }

  lemma EvictStepKeepsIndex(s: State, order: seq<PageId>, maxBytes: int)
    requires Indexed(s) && EvictionOrder(s, order)
    ensures Indexed(EvictStep(s, order, maxBytes).0)
  {
    if maxBytes >= 0 {
      EvictKeepsIndex(s, order, maxBytes);
      SameIndexKeeps(EvictFrom(s, order, maxBytes).0, EvictStep(s, order, maxBytes).0);
    }
  }

  /** Every call keeps the index, whatever the callers do. */
  lemma ApplyKeepsIndex(c: Codec, s: State, call: Call, now: int)
    requires Indexed(s) && Enabled(s, call)
    ensures Indexed(Apply(c, s, call, now))
  {
    match call
    case Create(kind, content) => CreateKeepsIndex(c, s, kind, content, now);
    case Mount(a, id) => MountKeepsIndex(s, a, id, now);
    case Materialize(a) => MaterializeKeepsIndex(c, s, a, now);
    case Touch(id) => TouchKeepsIndex(s, id, now);
    case Pin(id) => PinKeepsIndex(s, id, now);
    case Release(a, id) => ReleaseKeepsIndex(s, a, id, now);
    case Compress(max) => CompressKeepsIndex(c, s, max, now);
    case Evict(max, order) => EvictStepKeepsIndex(s, order, max);
  }

  /** The text never stops at a page missing from the store. */
  lemma {:induction false} ReadNeverMissing(c: Codec, s: State, ids: seq<PageId>, now: int)
    requires forall id :: id in ids ==> id in s.pages
    ensures ReadPages(c, s, ids, now).1 != Err(MissingPage)
    decreases |ids|
  {
    if ids != [] && Decode(c, s.pages[ids[0]]).Some? {
      assert ids[0] in ids;
      ReadNeverMissing(c, s.(pages := s.pages[ids[0] := TouchedPage(s.pages[ids[0]], now)]), ids[1..], now);
    }
  }

  // ----- runs without discipline -----

  ghost predicate Runs(c: Codec, states: seq<State>, calls: seq<(Call, int)>) {
    && |states| == |calls| + 1
    && states[0] == EMPTY_STORE
    && forall i :: 0 <= i < |calls| ==>
         Enabled(states[i], calls[i].0) && states[i + 1] == Apply(c, states[i], calls[i].0, calls[i].1)
  }

  /** In every reachable state tables are duplicate-free and live and owners are exact. */
  lemma {:induction false} IndexInEveryRun(c: Codec, states: seq<State>, calls: seq<(Call, int)>, k: nat)
    requires Runs(c, states, calls) && k < |states|
    ensures Indexed(states[k])
    ensures forall a, now :: MaterializeStep(c, states[k], a, now).1 != Err(MissingPage)
  {
    if k > 0 {
      IndexInEveryRun(c, states, calls, k - 1);
      ApplyKeepsIndex(c, states[k - 1], calls[k - 1].0, calls[k - 1].1);
    }
    forall a, now
      ensures MaterializeStep(c, states[k], a, now).1 != Err(MissingPage)
    {
      ReadNeverMissing(c, states[k], Table(states[k], a), now);
    }
  }
}
