/**
 * The context page store as a value and its atomic steps as functions.
 * Each step is one lock region of the store.
 */
module CvmModel {
  import opened Prelude

  newtype Byte = b: int | 0 <= b < 256
  type Bytes = seq<Byte>
  type PageId = string
  type AgentId = string

  /** The foreign codecs the store calls: SHA-256, gzip and rune counting. */
  datatype Codec = Codec(
    hash: Bytes -> PageId,
    gzip: Bytes -> Bytes,
    gunzip: Bytes -> Option<Bytes>,
    runes: Bytes -> nat)

  /** What is taken as given of the codecs: the hash separates contents and gzip is lossless. */
  ghost predicate Sound(c: Codec) {
    && (forall x, y :: c.hash(x) == c.hash(y) ==> x == y)
    && (forall x :: c.gunzip(c.gzip(x)) == Some(x))
  }

  /** A resident page; `data` holds the stored form once the page is compressed. */
  datatype Page = Page(
    id: PageId,
    kind: string,
    content: Bytes,
    bytes: nat,
    tokens: nat,
    refCount: nat,
    pinned: bool,
    compressed: bool,
    compressedSize: nat,
    data: Bytes,
    lastAccess: int,
    accessCount: nat,
    owners: seq<AgentId>,
    createdAt: int,
    updatedAt: int)

  datatype State = State(
    pages: map<PageId, Page>,
    tables: map<AgentId, seq<PageId>>,
    savedBytes: int,
    savedTokens: int,
    compressionSaved: int,
    evicted: nat)

  const EMPTY_STORE := State(map[], map[], 0, 0, 0, 0)

  const KIND_DELTA := "delta"

  function Table(s: State, a: AgentId): seq<PageId> {
    if a in s.tables then s.tables[a] else []
  }

  function EstimateTokens(c: Codec, content: Bytes): nat {
    var tokens := c.runes(content) / 4;
    if tokens == 0 && content != [] then 1 else tokens
  }

  function ResidentBytes(p: Page): nat {
    if p.compressed then p.compressedSize else p.bytes
  }

  ghost function Sizes(pages: map<PageId, Page>): map<PageId, int> {
    map id | id in pages :: ResidentBytes(pages[id])
  }

  /** Bytes the store occupies. */
  ghost function TotalResident(pages: map<PageId, Page>): int {
    Sum(Sizes(pages))
  }

  // ----- page contents -----

  /** The text a page stands for, whether stored plainly, raw or gzipped. */
  function Decode(c: Codec, p: Page): Option<Bytes> {
    if !p.compressed then Some(p.content)
    else if |p.data| == p.bytes then Some(p.data)
    else c.gunzip(p.data)
  }

  /** The shorter of the gzip form and the plain bytes, the plain bytes on a tie. */
  function Packed(c: Codec, content: Bytes): (r: Bytes)
    ensures |r| <= |content|
  {
    var data := c.gzip(content);
    if |data| >= |content| then content else data
  }

  // ----- steps -----

  function NewPage(c: Codec, kind: string, content: Bytes, now: int): Page {
    Page(c.hash(content), kind, content, |content|, EstimateTokens(c, content), 1,
         false, false, 0, [], now, 1, [], now, now)
  }

  function CreateStep(c: Codec, s: State, kind: string, content: Bytes, now: int): (State, Result<Page>) {
    if kind == "" then (s, Err(KindRequired))
    else
      var id := c.hash(content);
      if id in s.pages then
        var page := s.pages[id].(refCount := s.pages[id].refCount + 1);
        (s.(pages := s.pages[id := page],
            savedBytes := s.savedBytes + page.bytes,
            savedTokens := s.savedTokens + page.tokens), Ok(page))
      else
        var page := NewPage(c, kind, content, now);
        (s.(pages := s.pages[id := page]), Ok(page))
  }

  function AppendOwner(owners: seq<AgentId>, a: AgentId): seq<AgentId> {
    if a == "" then owners else AppendNew(owners, a)
  }

  function MountedPage(p: Page, a: AgentId, now: int): Page {
    p.(refCount := p.refCount + 1,
       owners := AppendOwner(p.owners, a),
       accessCount := p.accessCount + 1,
       lastAccess := now,
       updatedAt := now)
  }

  function MountStep(s: State, a: AgentId, id: PageId, now: int): (State, Result<()>) {
    if id !in s.pages then (s, Err(UnknownPage))
    else if id in Table(s, a) then (s, Ok(()))
    else
      var page := s.pages[id];
      var shared := page.refCount > 1;
      (s.(tables := s.tables[a := Table(s, a) + [id]],
          savedBytes := s.savedBytes + (if shared then page.bytes else 0),
          savedTokens := s.savedTokens + (if shared then page.tokens else 0),
          pages := s.pages[id := MountedPage(page, a, now)]), Ok(()))
  }

  function TouchedPage(p: Page, now: int): Page {
    p.(accessCount := p.accessCount + 1, lastAccess := now, updatedAt := now)
  }

  function TouchStep(s: State, id: PageId, now: int): (State, Result<()>) {
    if id !in s.pages then (s, Err(UnknownPage))
    else (s.(pages := s.pages[id := TouchedPage(s.pages[id], now)]), Ok(()))
  }

  function PinStep(s: State, id: PageId, now: int): (State, Result<()>) {
    if id !in s.pages then (s, Err(UnknownPage))
    else (s.(pages := s.pages[id := s.pages[id].(pinned := true, updatedAt := now)]), Ok(()))
  }

  function ReleasedPage(p: Page, a: AgentId, now: int): Page {
    p.(refCount := if p.refCount > 0 then p.refCount - 1 else 0,
       owners := if a == "" then p.owners else Without(p.owners, a),
       updatedAt := now)
  }

  function ReleaseStep(s: State, a: AgentId, id: PageId, now: int): (State, Result<()>) {
    if id !in s.pages then (s, Err(UnknownPage))
    else
      (s.(tables := if a == "" then s.tables else s.tables[a := Without(Table(s, a), id)],
          pages := s.pages[id := ReleasedPage(s.pages[id], a, now)]), Ok(()))
  }

  /** Reads the pages in order, counting an access on each one read. */
  function ReadPages(c: Codec, s: State, ids: seq<PageId>, now: int): (State, Result<Bytes>)
    decreases |ids|
  {
    if ids == [] then (s, Ok([]))
    else if ids[0] !in s.pages then (s, Err(MissingPage))
    else
      match Decode(c, s.pages[ids[0]])
      case None => (s, Err(CorruptPage))
      case Some(text) =>
        var (s', r) := ReadPages(c, s.(pages := s.pages[ids[0] := TouchedPage(s.pages[ids[0]], now)]), ids[1..], now);
        (s', if r.Ok? then Ok(text + r.value) else r)
  }

  /** Only how often and when pages were used may differ. */
  ghost predicate OnlyUseDiffers(s: State, t: State) {
    && t == s.(pages := t.pages) && t.pages.Keys == s.pages.Keys
    && forall id :: id in s.pages ==>
         var p, q := s.pages[id], t.pages[id];
         q == p.(accessCount := q.accessCount, lastAccess := q.lastAccess, updatedAt := q.updatedAt)
  }

  lemma {:induction false} ReadsOnlyCountUse(c: Codec, s: State, ids: seq<PageId>, now: int)
    ensures OnlyUseDiffers(s, ReadPages(c, s, ids, now).0)
    decreases |ids|
  {
    if ids != [] && ids[0] in s.pages && Decode(c, s.pages[ids[0]]).Some? {
      ReadsOnlyCountUse(c, s.(pages := s.pages[ids[0] := TouchedPage(s.pages[ids[0]], now)]), ids[1..], now);
    }
  }

  function MaterializeStep(c: Codec, s: State, a: AgentId, now: int): (State, Result<Bytes>) {
    ReadPages(c, s, Table(s, a), now)
  }

  function EffectiveLimit(maxAccess: int): int {
    if maxAccess <= 0 then 1 else maxAccess
  }

  predicate Compressible(p: Page, maxAccess: int) {
    !p.pinned && !p.compressed && p.accessCount <= EffectiveLimit(maxAccess) && p.content != []
  }

  function CompressedPage(c: Codec, p: Page, now: int): Page {
    var data := Packed(c, p.content);
    p.(data := data, compressed := true, compressedSize := |data|, content := [], updatedAt := now)
  }

  function Saving(c: Codec, p: Page): nat {
    if p.bytes > |Packed(c, p.content)| then p.bytes - |Packed(c, p.content)| else 0
  }

  ghost function ColdPages(s: State, maxAccess: int): map<PageId, Page> {
    map id | id in s.pages && Compressible(s.pages[id], maxAccess) :: s.pages[id]
  }

  ghost function Savings(c: Codec, cold: map<PageId, Page>): int {
    Sum(map id | id in cold :: Saving(c, cold[id]))
  }

  function CompressPages(c: Codec, pages: map<PageId, Page>, maxAccess: int, now: int): map<PageId, Page> {
    map id | id in pages ::
      if Compressible(pages[id], maxAccess) then CompressedPage(c, pages[id], now) else pages[id]
  }

  /** The new state, the number of pages compressed and the bytes saved. */
  ghost function CompressStep(c: Codec, s: State, maxAccess: int, now: int): (State, nat, int) {
    var cold := ColdPages(s, maxAccess);
    (s.(pages := CompressPages(c, s.pages, maxAccess, now),
        compressionSaved := s.compressionSaved + Savings(c, cold)), |cold|, Savings(c, cold))
  }

  // ----- eviction -----

  predicate Evictable(p: Page) {
    p.refCount == 0 && !p.pinned
  }

  /** Colder pages first: fewer accesses, then the older access. */
  predicate Colder(p: Page, q: Page) {
    if p.accessCount == q.accessCount then p.lastAccess < q.lastAccess else p.accessCount < q.accessCount
  }

  /** An order in which the sort may return the candidates; ties may fall either way. */
  ghost predicate EvictionOrder(s: State, order: seq<PageId>) {
    && NoDup(order)
    && (forall id :: id in order <==> id in s.pages && Evictable(s.pages[id]))
    && (forall i, j :: 0 <= i < j < |order| ==> !Colder(s.pages[order[j]], s.pages[order[i]]))
  }

  function Scrub(tables: map<AgentId, seq<PageId>>, id: PageId): map<AgentId, seq<PageId>> {
    map a | a in tables :: Without(tables[a], id)
  }

  /** Drops pages in the given order until the budget is met; also the number and bytes dropped. */
  ghost function EvictFrom(s: State, order: seq<PageId>, maxBytes: int): (State, nat, int)
    requires NoDup(order) && forall id :: id in order ==> id in s.pages
    decreases |order|
  {
    if order == [] || TotalResident(s.pages) <= maxBytes then (s, 0, 0)
    else
      assert order[0] in order;
      var id := order[0];
      var s1 := s.(pages := s.pages - {id}, tables := Scrub(s.tables, id));
      var (s2, n, freed) := EvictFrom(s1, order[1..], maxBytes);
      (s2, n + 1, freed + ResidentBytes(s.pages[id]))
  }

  ghost function EvictStep(s: State, order: seq<PageId>, maxBytes: int): (State, nat, int)
    requires EvictionOrder(s, order)
  {
    if maxBytes < 0 then (s, 0, 0)
    else
      var (s', n, freed) := EvictFrom(s, order, maxBytes);
      (s'.(evicted := s'.evicted + n), n, freed)
  }
}
