/**
 * The store refines a plain list of texts per agent: dedup, compression, eviction and the
 * interleaving of other agents are invisible in what an agent reads.
 */
module CvmRefinement {
  import opened Prelude
  import opened CvmModel
  import opened CvmIndex
  import opened CvmBytes
  import opened CvmLedger

  /** The simple machine: texts by name, the texts each agent mounts, and delta writes in flight. */
  datatype Simple = Simple(
    names: map<PageId, Bytes>,
    lists: map<AgentId, seq<Bytes>>,
    drafts: map<Thread, (AgentId, Bytes)>)

  const EMPTY_SIMPLE := Simple(map[], map[], map[])

  function List(m: Simple, a: AgentId): seq<Bytes> {
    if a in m.lists then m.lists[a] else []
  }

  function Concat(texts: seq<Bytes>): Bytes {
    if texts == [] then [] else texts[0] + Concat(texts[1..])
  }

  function Attach(m: Simple, a: AgentId, text: Bytes): Simple {
    m.(lists := m.lists[a := AppendNew(List(m, a), text)])
  }

  function Detach(m: Simple, a: AgentId, text: Bytes): Simple {
    m.(lists := m.lists[a := Without(List(m, a), text)])
  }

  /** What the client of a mount sees: success or an unknown page. */
  predicate MountSucceeds(s: State, id: PageId) {
    id in s.pages
  }

  /** One step of the simple machine; it only learns whether a mount was accepted. */
  function SimpleNext(c: Codec, m: Simple, step: Step, accepted: bool): Simple {
    match step
    case Do(Create(kind, content)) => if kind != "" then m.(names := m.names[c.hash(content) := content]) else m
    case Do(Mount(a, id)) => if accepted && id in m.names then Attach(m, a, m.names[id]) else m
    case Do(Release(a, id)) => if a != "" && id in m.names then Detach(m, a, m.names[id]) else m
    case Do(_) => m
    case DraftCreate(t, a, content) =>
      m.(names := m.names[c.hash(content) := content], drafts := m.drafts[t := (a, content)])
    case DraftMount(t) =>
      if t in m.drafts then Attach(m, m.drafts[t].0, m.drafts[t].1).(drafts := m.drafts - {t}) else m
  }

  predicate Accepted(y: System, step: Step) {
    step.Do? && step.call.Mount? ==> MountSucceeds(y.store, step.call.id)
  }

  // ----- the refinement relation -----

  /** The page stands for `text`, in whatever form it is stored. */
  ghost predicate Holds(c: Codec, p: Page, text: Bytes) {
    Decode(c, p) == Some(text) && p.bytes == |text| && p.tokens == EstimateTokens(c, text)
  }

  ghost predicate NamesSound(c: Codec, m: Simple) {
    forall id :: id in m.names ==> c.hash(m.names[id]) == id
  }

  ghost predicate PagesFaithful(c: Codec, s: State, m: Simple) {
    forall id :: id in s.pages ==> id in m.names && Holds(c, s.pages[id], m.names[id])
  }

  function Texts(names: map<PageId, Bytes>, ids: seq<PageId>): seq<Bytes> {
    if ids == [] then []
    else (if ids[0] in names then [names[ids[0]]] else []) + Texts(names, ids[1..])
  }

  ghost predicate TablesFaithful(s: State, m: Simple) {
    forall a :: List(m, a) == Texts(m.names, Table(s, a))
  }

  ghost predicate DraftsFaithful(c: Codec, y: System, m: Simple) {
    && m.drafts.Keys == y.drafts.Keys
    && forall t :: t in y.drafts ==>
         && m.drafts[t].0 == y.drafts[t].agent
         && y.drafts[t].id in m.names && m.names[y.drafts[t].id] == m.drafts[t].1
  }

  ghost predicate Refines(c: Codec, y: System, m: Simple) {
    NamesSound(c, m) && PagesFaithful(c, y.store, m) && TablesFaithful(y.store, m) && DraftsFaithful(c, y, m)
  }

  // ----- lists of texts -----

  lemma {:induction false} TextsSameNames(names: map<PageId, Bytes>, names': map<PageId, Bytes>, ids: seq<PageId>)
    requires forall id :: id in ids ==> id in names && id in names' && names'[id] == names[id]
    ensures Texts(names', ids) == Texts(names, ids)
  {
    if ids != [] {
      assert ids[0] in ids;
      TextsSameNames(names, names', ids[1..]);
    }
  }

  lemma {:induction false} TextsAppend(names: map<PageId, Bytes>, ids: seq<PageId>, id: PageId)
    requires id in names
    ensures Texts(names, ids + [id]) == Texts(names, ids) + [names[id]]
  {
    if ids == [] {
      assert [id][1..] == [];
    } else {
      assert (ids + [id])[1..] == ids[1..] + [id];
      TextsAppend(names, ids[1..], id);
      var head := if ids[0] in names then [names[ids[0]]] else [];
      assert head + (Texts(names, ids[1..]) + [names[id]]) == head + Texts(names, ids[1..]) + [names[id]];
    }
  }

  lemma {:induction false} TextsMember(c: Codec, m: Simple, ids: seq<PageId>, id: PageId)
    requires NamesSound(c, m) && id in m.names
    requires forall x :: x in ids ==> x in m.names
    ensures id in ids <==> m.names[id] in Texts(m.names, ids)
  {
    if ids != [] {
      assert ids[0] in ids;
      TextsMember(c, m, ids[1..], id);
      assert m.names[ids[0]] == m.names[id] ==> ids[0] == id;
    }
  }

  lemma {:induction false} TextsWithout(c: Codec, m: Simple, ids: seq<PageId>, id: PageId)
    requires NamesSound(c, m) && id in m.names
    requires forall x :: x in ids ==> x in m.names
    ensures Texts(m.names, Without(ids, id)) == Without(Texts(m.names, ids), m.names[id])
  {
    if ids != [] {
      assert ids[0] in ids;
      TextsWithout(c, m, ids[1..], id);
      var text := m.names[ids[0]];
      assert Texts(m.names, ids) == [text] + Texts(m.names, ids[1..]);
      assert Texts(m.names, ids)[1..] == Texts(m.names, ids[1..]);
      if ids[0] != id {
        assert text != m.names[id];
        assert ([ids[0]] + Without(ids[1..], id))[1..] == Without(ids[1..], id);
      }
    }
  }

  /** Reading pages that hold texts yields their concatenation. */
  lemma {:induction false} ReadsConcatenation(c: Codec, s: State, names: map<PageId, Bytes>, ids: seq<PageId>, now: int)
    requires forall id :: id in ids ==> id in s.pages && id in names && Decode(c, s.pages[id]) == Some(names[id])
    ensures ReadPages(c, s, ids, now).1 == Ok(Concat(Texts(names, ids)))
    decreases |ids|
  {
    if ids != [] {
      assert ids[0] in ids;
      var s1 := s.(pages := s.pages[ids[0] := TouchedPage(s.pages[ids[0]], now)]);
      ReadsConcatenation(c, s1, names, ids[1..], now);
      assert Texts(names, ids)[1..] == Texts(names, ids[1..]);
    }
  }

  // ----- steps -----

  /** Whatever text `p` holds, `q` holds. */
  ghost predicate KeepsText(c: Codec, p: Page, q: Page) {
    forall text :: Holds(c, p, text) ==> Holds(c, q, text)
  }

  /** Same tables, no new page, and no page lost its text. */
  ghost predicate Unseen(c: Codec, s: State, t: State) {
    && t.tables == s.tables
    && t.pages.Keys <= s.pages.Keys
    && forall id :: id in t.pages ==> KeepsText(c, s.pages[id], t.pages[id])
  }

  lemma UnseenKeepsRefinement(c: Codec, y: System, m: Simple, store: State)
    requires Refines(c, y, m) && Unseen(c, y.store, store)
    ensures Refines(c, y.(store := store), m)
  {
    forall a
      ensures Table(store, a) == Table(y.store, a)
    {
    }
    forall id | id in store.pages
      ensures Holds(c, store.pages[id], m.names[id])
    {
      assert KeepsText(c, y.store.pages[id], store.pages[id]);
    }
  }

  /** The stored form decodes to the original text: raw if gzip did not help, gzip otherwise. */
  lemma CompressionKeepsText(c: Codec, p: Page, maxAccess: int, now: int, text: Bytes)
    requires Sound(c) && Compressible(p, maxAccess) && Holds(c, p, text)
    ensures Holds(c, CompressedPage(c, p, now), text)
  {
    var data := Packed(c, p.content);
    assert c.gunzip(c.gzip(p.content)) == Some(p.content);
    assert data == p.content || (data == c.gzip(p.content) && |data| < p.bytes);
  }

  predicate SameForm(p: Page, q: Page) {
    && q.content == p.content && q.compressed == p.compressed && q.data == p.data
    && q.bytes == p.bytes && q.tokens == p.tokens
  }

  lemma CompressionUnseen(c: Codec, s: State, maxAccess: int, now: int)
    requires Sound(c)
    ensures Unseen(c, s, CompressStep(c, s, maxAccess, now).0)
  {
    var t := CompressStep(c, s, maxAccess, now).0;
    forall id, text | id in t.pages && Holds(c, s.pages[id], text)
      ensures Holds(c, t.pages[id], text)
    {
      if Compressible(s.pages[id], maxAccess) { CompressionKeepsText(c, s.pages[id], maxAccess, now, text); }
    }
  }

  lemma EvictionUnseen(c: Codec, y: System, order: seq<PageId>, maxBytes: int)
    requires Counted(y) && EvictionOrder(y.store, order)
    ensures Unseen(c, y.store, EvictStep(y.store, order, maxBytes).0)
  {
    EvictionSparesTables(y, order, maxBytes);
    EvictionTakesColdest(y.store, order, maxBytes);
  }

  lemma InPlaceUnseen(c: Codec, s: State, call: Call, now: int)
    requires call.Materialize? || call.Touch? || call.Pin?
    ensures Unseen(c, s, Apply(c, s, call, now))
  {
    if call.Materialize? { ReadsOnlyCountUse(c, s, Table(s, call.agent), now); }
    var t := Apply(c, s, call, now);
    forall id | id in t.pages
      ensures KeepsText(c, s.pages[id], t.pages[id])
    {
      assert SameForm(s.pages[id], t.pages[id]);
    }
  }

  /** Reads, touches, pins, compression and eviction change no page's text and no table. */
  lemma MaintenanceUnseen(c: Codec, y: System, call: Call, now: int)
    requires Sound(c) && Counted(y) && Balanced(y, Do(call))
    requires !call.Create? && !call.Mount? && !call.Release?
    ensures Unseen(c, y.store, Apply(c, y.store, call, now))
  {
    if call.Compress? {
      CompressionUnseen(c, y.store, call.maxAccess, now);
    } else if call.Evict? {
      EvictionUnseen(c, y, call.order, call.maxBytes);
    } else {
      InPlaceUnseen(c, y.store, call, now);
    }
  }

  lemma CreateRefines(c: Codec, s: State, m: Simple, kind: string, content: Bytes, now: int)
    requires Sound(c) && NamesSound(c, m) && PagesFaithful(c, s, m) && TablesFaithful(s, m) && TablesLive(s)
    requires kind != ""
    ensures var t, m' := CreateStep(c, s, kind, content, now).0, m.(names := m.names[c.hash(content) := content]);
      NamesSound(c, m') && PagesFaithful(c, t, m') && TablesFaithful(t, m')
    ensures forall id :: id in m.names ==> m.names[id] == m.names[c.hash(content) := content][id]
  {
    CreateKeepsPages(c, s, m, kind, content, now);
    MoreNamesKeepTables(c, s, m, CreateStep(c, s, kind, content, now).0, m.names[c.hash(content) := content]);
  }

  lemma CreateKeepsPages(c: Codec, s: State, m: Simple, kind: string, content: Bytes, now: int)
    requires Sound(c) && NamesSound(c, m) && PagesFaithful(c, s, m) && kind != ""
    ensures var t, m' := CreateStep(c, s, kind, content, now).0, m.(names := m.names[c.hash(content) := content]);
      NamesSound(c, m') && PagesFaithful(c, t, m') && t.tables == s.tables
    ensures forall id :: id in m.names ==> m.names[id] == m.names[c.hash(content) := content][id]
  {
    assert c.hash(content) in m.names ==> m.names[c.hash(content)] == content;
  }

  lemma MoreNamesKeepTables(c: Codec, s: State, m: Simple, t: State, names: map<PageId, Bytes>)
    requires PagesFaithful(c, s, m) && TablesFaithful(s, m) && TablesLive(s)
    requires m.names.Keys <= names.Keys && forall id :: id in m.names ==> m.names[id] == names[id]
    requires t.tables == s.tables
    ensures TablesFaithful(t, m.(names := names))
  {
    var m' := m.(names := names);
    forall a
      ensures List(m', a) == Texts(names, Table(t, a))
    {
      assert List(m, a) == Texts(m.names, Table(s, a));
      TextsSameNames(m.names, names, Table(s, a));
    }
  }

  lemma MountRefines(c: Codec, s: State, m: Simple, a: AgentId, id: PageId, now: int)
    requires NamesSound(c, m) && PagesFaithful(c, s, m) && TablesFaithful(s, m) && TablesLive(s)
    requires id in s.pages
    ensures var t, m' := MountStep(s, a, id, now).0, Attach(m, a, m.names[id]);
      PagesFaithful(c, t, m') && TablesFaithful(t, m')
  {
    var t, m' := MountStep(s, a, id, now).0, Attach(m, a, m.names[id]);
    TextsMember(c, m, Table(s, a), id);
    TextsAppend(m.names, Table(s, a), id);
    forall b
      ensures List(m', b) == Texts(m'.names, Table(t, b))
    {
      assert List(m, b) == Texts(m.names, Table(s, b));
    }
  }

  lemma ReleaseRefines(c: Codec, s: State, m: Simple, a: AgentId, id: PageId, now: int)
    requires NamesSound(c, m) && PagesFaithful(c, s, m) && TablesFaithful(s, m) && TablesLive(s)
    requires id in s.pages
    ensures var t, m' := ReleaseStep(s, a, id, now).0, if a != "" then Detach(m, a, m.names[id]) else m;
      PagesFaithful(c, t, m') && TablesFaithful(t, m')
  {
    var t, m' := ReleaseStep(s, a, id, now).0, if a != "" then Detach(m, a, m.names[id]) else m;
    TextsWithout(c, m, Table(s, a), id);
    forall b
      ensures List(m', b) == Texts(m'.names, Table(t, b))
    {
      assert List(m, b) == Texts(m.names, Table(s, b));
    }
  }

  lemma CallRefines(c: Codec, y: System, m: Simple, call: Call, now: int)
    requires Sound(c) && Ledger(y) && Refines(c, y, m) && Balanced(y, Do(call))
    ensures var m' := SimpleNext(c, m, Do(call), Accepted(y, Do(call)));
      Refines(c, y.(store := Apply(c, y.store, call, now)), m')
  {
    if call.Create? {
      if call.kind != "" { CreateRefines(c, y.store, m, call.kind, call.content, now); }
    } else if call.Mount? {
      if call.id in y.store.pages { MountRefines(c, y.store, m, call.agent, call.id, now); }
    } else if call.Release? {
      assert call.id in y.store.pages;
      ReleaseRefines(c, y.store, m, call.agent, call.id, now);
    } else {
      MaintenanceUnseen(c, y, call, now);
      UnseenKeepsRefinement(c, y, m, Apply(c, y.store, call, now));
    }
  }

  lemma DraftCreateKeepsDrafts(c: Codec, y: System, m: Simple, t: Thread, a: AgentId, content: Bytes, now: int)
    requires DraftsFaithful(c, y, m) && Balanced(y, DraftCreate(t, a, content))
    requires forall id :: id in m.names ==> m.names[id] == m.names[c.hash(content) := content][id]
    ensures DraftsFaithful(c, Next(c, y, DraftCreate(t, a, content), now), SimpleNext(c, m, DraftCreate(t, a, content), true))
  {
  }

  /** The drafts play no part in what the tables and pages stand for. */
  lemma DraftsApart(c: Codec, s: State, m: Simple, m': Simple)
    requires NamesSound(c, m) && PagesFaithful(c, s, m) && TablesFaithful(s, m)
    requires m' == m.(drafts := m'.drafts)
    ensures NamesSound(c, m') && PagesFaithful(c, s, m') && TablesFaithful(s, m')
  {
    forall a
      ensures List(m', a) == Texts(m'.names, Table(s, a))
    {
      assert List(m', a) == List(m, a);
    }
  }

  lemma DraftCreateRefines(c: Codec, y: System, m: Simple, t: Thread, a: AgentId, content: Bytes, now: int)
    requires Sound(c) && Ledger(y) && Refines(c, y, m) && t !in y.drafts
    ensures Refines(c, Next(c, y, DraftCreate(t, a, content), now), SimpleNext(c, m, DraftCreate(t, a, content), true))
  {
    CreateRefines(c, y.store, m, KIND_DELTA, content, now);
    DraftCreateKeepsDrafts(c, y, m, t, a, content, now);
    DraftsApart(c, CreateStep(c, y.store, KIND_DELTA, content, now).0,
                m.(names := m.names[c.hash(content) := content]),
                SimpleNext(c, m, DraftCreate(t, a, content), true));
  }

  lemma DraftMountRefines(c: Codec, y: System, m: Simple, t: Thread, now: int)
    requires Sound(c) && Ledger(y) && Refines(c, y, m) && t in y.drafts
    ensures Refines(c, Next(c, y, DraftMount(t), now), SimpleNext(c, m, DraftMount(t), true))
  {
    MountRefines(c, y.store, m, y.drafts[t].agent, y.drafts[t].id, now);
    DraftsApart(c, MountStep(y.store, y.drafts[t].agent, y.drafts[t].id, now).0,
                Attach(m, y.drafts[t].agent, m.names[y.drafts[t].id]), SimpleNext(c, m, DraftMount(t), true));
    DraftMountKeepsDrafts(c, y, m, t, now);
    RefinesByParts(c, Next(c, y, DraftMount(t), now), SimpleNext(c, m, DraftMount(t), true));
  }

  lemma RefinesByParts(c: Codec, y: System, m: Simple)
    requires NamesSound(c, m) && PagesFaithful(c, y.store, m) && TablesFaithful(y.store, m) && DraftsFaithful(c, y, m)
    ensures Refines(c, y, m)
  {
  }

  lemma DraftMountKeepsDrafts(c: Codec, y: System, m: Simple, t: Thread, now: int)
    requires DraftsFaithful(c, y, m) && t in y.drafts
    ensures DraftsFaithful(c, Next(c, y, DraftMount(t), now), SimpleNext(c, m, DraftMount(t), true))
  {
  }

  /** Every balanced step of the store is a step of the simple machine. */
  lemma StepRefines(c: Codec, y: System, m: Simple, step: Step, now: int)
    requires Sound(c) && Ledger(y) && Refines(c, y, m) && Balanced(y, step)
    ensures Refines(c, Next(c, y, step, now), SimpleNext(c, m, step, Accepted(y, step)))
  {
    match step
    case DraftCreate(t, a, content) => DraftCreateRefines(c, y, m, t, a, content, now);
    case DraftMount(t) => DraftMountRefines(c, y, m, t, now);
    case Do(call) =>
      CallRefines(c, y, m, call, now);
      assert DraftsFaithful(c, y, m);
  }

  // ----- runs -----

  /** The simple machine fed with the same steps. */
  ghost function SimpleRun(c: Codec, run: seq<System>, steps: seq<(Step, int)>, k: nat): Simple
    requires k <= |steps| && k < |run|
  {
    if k == 0 then EMPTY_SIMPLE
    else SimpleNext(c, SimpleRun(c, run, steps, k - 1), steps[k - 1].0, Accepted(run[k - 1], steps[k - 1].0))
  }

  lemma {:induction false} RefinementInEveryRun(c: Codec, run: seq<System>, steps: seq<(Step, int)>, k: nat)
    requires Sound(c) && BalancedRun(c, run, steps) && k <= |steps|
    ensures Refines(c, run[k], SimpleRun(c, run, steps, k))
  {
    if k > 0 {
      RefinementInEveryRun(c, run, steps, k - 1);
      LedgerInEveryRun(c, run, steps, k - 1);
      StepRefines(c, run[k - 1], SimpleRun(c, run, steps, k - 1), steps[k - 1].0, steps[k - 1].1);
    }
  }

  /** Whenever an agent reads its context, it reads the concatenation of the texts it mounts. */
  lemma AgentsReadWhatTheyMounted(c: Codec, run: seq<System>, steps: seq<(Step, int)>, k: nat, a: AgentId, now: int)
    requires Sound(c) && BalancedRun(c, run, steps) && k <= |steps|
    ensures MaterializeStep(c, run[k].store, a, now).1 == Ok(Concat(List(SimpleRun(c, run, steps, k), a)))
  {
    RefinementInEveryRun(c, run, steps, k);
    LedgerInEveryRun(c, run, steps, k);
    var m := SimpleRun(c, run, steps, k);
    ReadsConcatenation(c, run[k].store, m.names, Table(run[k].store, a), now);
  }

  /** The agent whose mounts a step may change. */
  function Actor(y: System, step: Step): Option<AgentId> {
    match step
    case Do(Mount(a, _)) => Some(a)
    case Do(Release(a, _)) => if a == "" then None else Some(a)
    case DraftMount(t) => if t in y.drafts then Some(y.drafts[t].agent) else None
    case _ => None
  }

  lemma OthersListSame(c: Codec, y: System, m: Simple, step: Step, a: AgentId)
    requires DraftsFaithful(c, y, m) && Actor(y, step) != Some(a)
    ensures List(SimpleNext(c, m, step, Accepted(y, step)), a) == List(m, a)
  {
  }

  /** No step of anyone else changes what an agent reads. */
  lemma OthersReadTheSame(c: Codec, run: seq<System>, steps: seq<(Step, int)>, k: nat, a: AgentId, now: int, now': int)
    requires Sound(c) && BalancedRun(c, run, steps) && k < |steps|
    requires Actor(run[k], steps[k].0) != Some(a)
    ensures MaterializeStep(c, run[k + 1].store, a, now').1 == MaterializeStep(c, run[k].store, a, now).1
  {
    AgentsReadWhatTheyMounted(c, run, steps, k, a, now);
    AgentsReadWhatTheyMounted(c, run, steps, k + 1, a, now');
    RefinementInEveryRun(c, run, steps, k);
    OthersListSame(c, run[k], SimpleRun(c, run, steps, k), steps[k].0, a);
  }

  /** A finished delta write appends its text once: not at all if the agent already mounts it. */
  lemma DeltaAppendsOnce(c: Codec, run: seq<System>, steps: seq<(Step, int)>, k: nat)
    requires Sound(c) && BalancedRun(c, run, steps) && k < |steps| && steps[k].0.DraftMount?
    ensures var t := steps[k].0.thread; var d := SimpleRun(c, run, steps, k).drafts;
      && t in d
      && List(SimpleRun(c, run, steps, k + 1), d[t].0)
         == AppendNew(List(SimpleRun(c, run, steps, k), d[t].0), d[t].1)
  {
    RefinementInEveryRun(c, run, steps, k);
    assert DraftsFaithful(c, run[k], SimpleRun(c, run, steps, k));
  }
}
