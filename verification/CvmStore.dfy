/**
 * The page store object. Every method runs under the store's lock, so each is one step of the
 * model; `now` is the wall clock it reads.
 */
module CvmStore {
  import opened Prelude
  import opened CvmModel
  import opened CvmBytes

  method AppendUniqueString(values: seq<string>, value: string) returns (r: seq<string>)
    ensures r == AppendOwner(values, value)
  {
    if value == "" {
      return values;
    }
    for i := 0 to |values|
      invariant value !in values[..i]
    {
      if values[i] == value {
        return values;
      }
    }
    assert values[..|values|] == values;
    r := values + [value];
  }

  method RemoveString(values: seq<string>, value: string) returns (out: seq<string>)
    ensures out == Without(values, value)
  {
    out := [];
    for i := 0 to |values|
      invariant out == Without(values[..i], value)
    {
      assert values[..i + 1] == values[..i] + [values[i]];
      WithoutAppend(values[..i], values[i], value);
      if values[i] != value {
        out := out + [values[i]];
      }
    }
    assert values[..|values|] == values;
  }

  /** A read whose text is put behind what was read before. */
  function Prefixed(out: Bytes, r: Result<Bytes>): Result<Bytes> {
    if r.Ok? then Ok(out + r.value) else r
  }

  lemma PrefixedEmpty(r: Result<Bytes>)
    ensures Prefixed([], r) == r
  {
    if r.Ok? { assert [] + r.value == r.value; }
  }

  lemma PrefixedAppend(out: Bytes, text: Bytes, r: Result<Bytes>)
    ensures Prefixed(out, Prefixed(text, r)) == Prefixed(out + text, r)
  {
    if r.Ok? { assert out + (text + r.value) == out + text + r.value; }
  }

  /** Every page but those in `todo` has been visited. */
  ghost predicate PagesVisited(c: Codec, before: map<PageId, Page>, after: map<PageId, Page>,
                               todo: set<PageId>, limit: int, now: int) {
    && after.Keys == before.Keys
    && (forall id :: id in before ==>
          after[id] == if id !in todo && Compressible(before[id], limit) then CompressedPage(c, before[id], now)
                       else before[id])
  }

  /** The counters account for every page but those in `todo`. */
  ghost predicate Tallied(c: Codec, before: map<PageId, Page>, todo: set<PageId>, limit: int, n: nat, saved: int) {
    n == |ColdSoFar(before, todo, limit)| && saved == Sum(GainsSoFar(c, before, todo, limit))
  }

  ghost function GainsSoFar(c: Codec, pages: map<PageId, Page>, todo: set<PageId>, limit: int): map<PageId, int> {
    map id | id in pages :: if id !in todo && Compressible(pages[id], limit) then Saving(c, pages[id]) else 0
  }

  ghost function ColdSoFar(pages: map<PageId, Page>, todo: set<PageId>, limit: int): set<PageId> {
    set id | id in pages && id !in todo && Compressible(pages[id], limit)
  }

  lemma VisitStep(c: Codec, before: map<PageId, Page>, after: map<PageId, Page>, todo: set<PageId>, limit: int,
                  now: int, id: PageId)
    requires PagesVisited(c, before, after, todo, limit, now) && id in todo && id in before
    ensures after[id] == before[id]
    ensures PagesVisited(c, before,
              if Compressible(before[id], limit) then after[id := CompressedPage(c, before[id], now)] else after,
              todo - {id}, limit, now)
  {
  }

  lemma TallyStart(c: Codec, pages: map<PageId, Page>, limit: int)
    ensures Tallied(c, pages, pages.Keys, limit, 0, 0)
  {
    SumPadded(map[], GainsSoFar(c, pages, pages.Keys, limit));
    assert ColdSoFar(pages, pages.Keys, limit) == {};
  }

  lemma ColdStep(pages: map<PageId, Page>, todo: set<PageId>, id: PageId, limit: int)
    requires id in todo && id in pages
    ensures |ColdSoFar(pages, todo - {id}, limit)|
         == |ColdSoFar(pages, todo, limit)| + if Compressible(pages[id], limit) then 1 else 0
  {
    var cold := ColdSoFar(pages, todo, limit);
    assert ColdSoFar(pages, todo - {id}, limit) == cold + if Compressible(pages[id], limit) then {id} else {};
  }

  lemma TallyStep(c: Codec, pages: map<PageId, Page>, todo: set<PageId>, limit: int, n: nat, saved: int, id: PageId)
    requires id in todo && id in pages && Tallied(c, pages, todo, limit, n, saved)
    ensures if Compressible(pages[id], limit)
            then Tallied(c, pages, todo - {id}, limit, n + 1, saved + Saving(c, pages[id]))
            else Tallied(c, pages, todo - {id}, limit, n, saved)
  {
    var gain: int := if Compressible(pages[id], limit) then Saving(c, pages[id]) else 0;
    var g := GainsSoFar(c, pages, todo, limit);
    assert GainsSoFar(c, pages, todo - {id}, limit) == g[id := gain];
    SumUpdate(g, id, gain);
    ColdStep(pages, todo, id, limit);
  }

  /** The change one turn of the compression loop makes. */
  ghost predicate Turned(c: Codec, pages: map<PageId, Page>, pages': map<PageId, Page>, id: PageId, limit: int, now: int,
                         did: nat, gain: nat) {
    id in pages &&
    if Compressible(pages[id], limit) then
      did == 1 && gain == Saving(c, pages[id]) && pages' == pages[id := CompressedPage(c, pages[id], now)]
    else did == 0 && gain == 0 && pages' == pages
  }

  lemma TurnStep(c: Codec, before: map<PageId, Page>, after: map<PageId, Page>, after': map<PageId, Page>,
                 todo: set<PageId>, limit: int, now: int, n: nat, saved: int, id: PageId, did: nat, gain: nat)
    requires PagesVisited(c, before, after, todo, limit, now) && Tallied(c, before, todo, limit, n, saved)
    requires id in todo && id in before && Turned(c, after, after', id, limit, now, did, gain)
    ensures PagesVisited(c, before, after', todo - {id}, limit, now)
    ensures Tallied(c, before, todo - {id}, limit, n + did, saved + gain)
  {
    VisitStep(c, before, after, todo, limit, now, id);
    TallyStep(c, before, todo, limit, n, saved, id);
  }

  /** A sweep over the pages has come so far. */
  ghost predicate SweptTo(c: Codec, before: map<PageId, Page>, after: map<PageId, Page>, todo: set<PageId>, limit: int,
                          now: int, n: nat, saved: int)
  {
    todo <= before.Keys && PagesVisited(c, before, after, todo, limit, now) && Tallied(c, before, todo, limit, n, saved)
  }

  lemma SweepCovers(c: Codec, before: map<PageId, Page>, after: map<PageId, Page>, todo: set<PageId>, limit: int,
                    now: int, n: nat, saved: int, id: PageId)
    requires SweptTo(c, before, after, todo, limit, now, n, saved) && id in todo
    ensures id in before && id in after
  {
  }

  lemma SweepStep(c: Codec, before: map<PageId, Page>, after: map<PageId, Page>, after': map<PageId, Page>,
                  todo: set<PageId>, limit: int, now: int, n: nat, saved: int, id: PageId, did: nat, gain: nat)
    requires SweptTo(c, before, after, todo, limit, now, n, saved) && id in todo
    requires id in after && Turned(c, after, after', id, limit, now, did, gain)
    ensures SweptTo(c, before, after', todo - {id}, limit, now, n + did, saved + gain)
  {
    TurnStep(c, before, after, after', todo, limit, now, n, saved, id, did, gain);
  }

  lemma TallyEnd(c: Codec, s: State, maxAccess: int, n: nat, saved: int)
    requires Tallied(c, s.pages, {}, EffectiveLimit(maxAccess), n, saved)
    ensures n == |ColdPages(s, maxAccess)| && saved == Savings(c, ColdPages(s, maxAccess))
  {
    SavingsAreGains(c, s, maxAccess);
    assert GainsSoFar(c, s.pages, {}, EffectiveLimit(maxAccess)) == Gains(c, s, maxAccess);
    assert ColdSoFar(s.pages, {}, EffectiveLimit(maxAccess)) == ColdPages(s, maxAccess).Keys;
    assert |ColdPages(s, maxAccess).Keys| == |ColdPages(s, maxAccess)|;
  }

  lemma CompressEnd(c: Codec, s: State, t: State, maxAccess: int, now: int, n: nat, saved: int)
    requires PagesVisited(c, s.pages, t.pages, {}, EffectiveLimit(maxAccess), now)
    requires n == |ColdPages(s, maxAccess)| && saved == Savings(c, ColdPages(s, maxAccess))
    requires t == s.(pages := t.pages, compressionSaved := s.compressionSaved + saved)
    ensures (t, n, saved) == CompressStep(c, s, maxAccess, now)
  {
    VisitedAll(c, s.pages, t.pages, maxAccess, now);
  }

  lemma VisitedAll(c: Codec, before: map<PageId, Page>, after: map<PageId, Page>, maxAccess: int, now: int)
    requires PagesVisited(c, before, after, {}, EffectiveLimit(maxAccess), now)
    ensures after == CompressPages(c, before, maxAccess, now)
  {
  }

  function Dropped(s: State, id: PageId): State {
    s.(pages := s.pages - {id}, tables := Scrub(s.tables, id))
  }

  /** `n` pages and `freed` bytes are gone, and evicting the rest of the order gives `whole`. */
  ghost predicate Evicting(whole: (State, nat, int), t: State, order: seq<PageId>, i: nat, maxBytes: int, n: nat, freed: int) {
    && i <= |order| && NoDup(order[i..]) && (forall id :: id in order[i..] ==> id in t.pages)
    && var rest := EvictFrom(t, order[i..], maxBytes);
       rest.0 == whole.0 && rest.1 + n == whole.1 && rest.2 + freed == whole.2
  }

  lemma EvictionStarts(s: State, order: seq<PageId>, maxBytes: int)
    requires EvictionOrder(s, order)
    ensures Evicting(EvictFrom(s, order, maxBytes), s, order, 0, maxBytes, 0, 0)
  {
    assert order[0..] == order;
  }

  lemma EvictionTurns(whole: (State, nat, int), t: State, order: seq<PageId>, i: nat, maxBytes: int, n: nat, freed: int)
    requires Evicting(whole, t, order, i, maxBytes, n, freed) && i < |order| && TotalResident(t.pages) > maxBytes
    ensures order[i] in t.pages
    ensures var size := ResidentBytes(t.pages[order[i]]);
      && TotalResident(Dropped(t, order[i]).pages) == TotalResident(t.pages) - size
      && Evicting(whole, Dropped(t, order[i]), order, i + 1, maxBytes, n + 1, freed + size)
  {
    var rest := order[i..];
    assert rest[0] == order[i] && rest[1..] == order[i + 1..];
    assert rest[0] in rest;
    TotalRemove(t.pages, order[i]);
    forall id | id in rest[1..]
      ensures id in t.pages - {order[i]}
    {
      assert id in rest;
    }
  }

  lemma EvictionEnds(whole: (State, nat, int), t: State, order: seq<PageId>, i: nat, maxBytes: int, n: nat, freed: int)
    requires Evicting(whole, t, order, i, maxBytes, n, freed)
    requires i == |order| || TotalResident(t.pages) <= maxBytes
    ensures whole == (t, n, freed)
  {
  }

  class Store {
    const codec: Codec
    var pages: map<PageId, Page>
    var pageTables: map<AgentId, seq<PageId>>
    var savedBytes: int
    var savedTokens: int
    var compressionSavedBytes: int
    var evictedPages: nat

    /** The store as a value. */
    ghost function Value(): State
      reads this
    {
      State(pages, pageTables, savedBytes, savedTokens, compressionSavedBytes, evictedPages)
    }

    constructor (codec: Codec)
      ensures this.codec == codec && Value() == EMPTY_STORE
    {
      this.codec := codec;
      pages, pageTables := map[], map[];
      savedBytes, savedTokens, compressionSavedBytes, evictedPages := 0, 0, 0, 0;
    }

    method CreatePage(kind: string, content: Bytes, now: int) returns (r: Result<Page>)
      modifies this
      ensures (Value(), r) == CreateStep(codec, old(Value()), kind, content, now)
    {
      if kind == "" {
        return Err(KindRequired);
      }
      var id := codec.hash(content);
      var tokens := EstimateTokens(codec, content);
      if id in pages {
        var page := pages[id];
        page := page.(refCount := page.refCount + 1);
        pages := pages[id := page];
        savedBytes := savedBytes + page.bytes;
        savedTokens := savedTokens + page.tokens;
        return Ok(page);
      }
      var page := Page(id, kind, content, |content|, tokens, 1, false, false, 0, [], now, 1, [], now, now);
      pages := pages[id := page];
      r := Ok(page);
    }

    method MountPage(agent: AgentId, id: PageId, now: int) returns (r: Result<()>)
      modifies this
      ensures (Value(), r) == MountStep(old(Value()), agent, id, now)
    {
      if id !in pages {
        return Err(UnknownPage);
      }
      var page := pages[id];
      var table := if agent in pageTables then pageTables[agent] else [];
      for i := 0 to |table|
        invariant id !in table[..i]
        invariant unchanged(this)
      {
        if table[i] == id {
          return Ok(());
        }
      }
      assert table[..|table|] == table;
      pageTables := pageTables[agent := table + [id]];
      if page.refCount > 1 {
        savedBytes := savedBytes + page.bytes;
        savedTokens := savedTokens + page.tokens;
      }
      var owners := AppendUniqueString(page.owners, agent);
      page := page.(refCount := page.refCount + 1, owners := owners,
                    accessCount := page.accessCount + 1, lastAccess := now, updatedAt := now);
      pages := pages[id := page];
      r := Ok(());
    }

    /** Two lock regions; with nothing in between it is a create followed by a mount. */
    method WriteDelta(agent: AgentId, content: Bytes, now: int) returns (r: Result<Page>)
      modifies this
      ensures var (mid, created) := CreateStep(codec, old(Value()), KIND_DELTA, content, now);
        && r == created && r.Ok?
        && Value() == MountStep(mid, agent, codec.hash(content), now).0
    {
      var page := CreatePage(KIND_DELTA, content, now);
      if page.Err? {
        return page;
      }
      assert codec.hash(content) in pages;
      var mounted := MountPage(agent, codec.hash(content), now);
      r := if mounted.Ok? then page else Err(UnknownPage);
    }

    method Materialize(agent: AgentId, now: int) returns (r: Result<Bytes>)
      modifies this
      ensures (Value(), r) == MaterializeStep(codec, old(Value()), agent, now)
    {
      var table := if agent in pageTables then pageTables[agent] else [];
      var out: Bytes := [];
      ghost var (final, whole) := MaterializeStep(codec, Value(), agent, now);
      assert table[0..] == table;
      PrefixedEmpty(whole);
      for i := 0 to |table|
        invariant ReadPages(codec, Value(), table[i..], now).0 == final
        invariant var rest := ReadPages(codec, Value(), table[i..], now).1;
          whole == Prefixed(out, rest)
      {
        var id := table[i];
        assert table[i..][0] == id && table[i..][1..] == table[i + 1..];
        if id !in pages {
          return Err(MissingPage);
        }
        var content := Decode(codec, pages[id]);
        if content.None? {
          return Err(CorruptPage);
        }
        ghost var rest := ReadPages(codec, Value().(pages := pages[id := TouchedPage(pages[id], now)]), table[i + 1..], now).1;
        PrefixedAppend(out, content.value, rest);
        out := out + content.value;
        var page := pages[id];
        page := page.(accessCount := page.accessCount + 1, lastAccess := now, updatedAt := now);
        pages := pages[id := page];
      }
      assert table[|table|..] == [] && out + [] == out;
      r := Ok(out);
    }

    method TouchPage(id: PageId, now: int) returns (r: Result<()>)
      modifies this
      ensures (Value(), r) == TouchStep(old(Value()), id, now)
    {
      if id !in pages {
        return Err(UnknownPage);
      }
      var page := pages[id];
      pages := pages[id := page.(accessCount := page.accessCount + 1, lastAccess := now, updatedAt := now)];
      r := Ok(());
    }

    method PinPage(id: PageId, now: int) returns (r: Result<()>)
      modifies this
      ensures (Value(), r) == PinStep(old(Value()), id, now)
    {
      if id !in pages {
        return Err(UnknownPage);
      }
      pages := pages[id := pages[id].(pinned := true, updatedAt := now)];
      r := Ok(());
    }

    method ReleasePage(agent: AgentId, id: PageId, now: int) returns (r: Result<()>)
      modifies this
      ensures (Value(), r) == ReleaseStep(old(Value()), agent, id, now)
    {
      if id !in pages {
        return Err(UnknownPage);
      }
      var page := pages[id];
      if page.refCount > 0 {
        page := page.(refCount := page.refCount - 1);
      }
      if agent != "" {
        var table := RemoveString(if agent in pageTables then pageTables[agent] else [], id);
        pageTables := pageTables[agent := table];
        var owners := RemoveString(page.owners, agent);
        page := page.(owners := owners);
      }
      pages := pages[id := page.(updatedAt := now)];
      r := Ok(());
    }

    method CompressColdPages(maxAccess: int, now: int) returns (compressed: nat, saved: int)
      modifies this
      ensures (Value(), compressed, saved) == CompressStep(codec, old(Value()), maxAccess, now)
    {
      var limit := if maxAccess <= 0 then 1 else maxAccess;
      ghost var start := Value();
      compressed, saved := CompressPagesUpTo(limit, now);
      TallyEnd(codec, start, maxAccess, compressed, saved);
      CompressEnd(codec, start, Value(), maxAccess, now, compressed, saved);
    }

    /** The loop over the page map. */
    method CompressPagesUpTo(limit: int, now: int) returns (compressed: nat, saved: int)
      requires limit > 0
      modifies this`pages, this`compressionSavedBytes
      ensures PagesVisited(codec, old(pages), pages, {}, limit, now)
      ensures Tallied(codec, old(pages), {}, limit, compressed, saved)
      ensures compressionSavedBytes == old(compressionSavedBytes) + saved
    {
      compressed, saved := 0, 0;
      ghost var before := pages;
      TallyStart(codec, before, limit);
      var todo := pages.Keys;
      while todo != {}
        invariant SweptTo(codec, before, pages, todo, limit, now, compressed, saved)
        invariant compressionSavedBytes == old(compressionSavedBytes) + saved
        decreases |todo|
      {
        var id :| id in todo;
        ghost var was := pages;
        SweepCovers(codec, before, was, todo, limit, now, compressed, saved, id);
        var did, pageSaved := CompressAt(id, limit, now);
        SweepStep(codec, before, was, pages, todo, limit, now, compressed, saved, id, did, pageSaved);
        todo := todo - {id};
        saved := saved + pageSaved;
        compressed := compressed + did;
      }
    }

    /** One turn of the loop: skip the page, or compress it in place. */
    method CompressAt(id: PageId, limit: int, now: int) returns (did: nat, pageSaved: nat)
      requires id in pages && limit > 0
      modifies this`pages, this`compressionSavedBytes
      ensures Turned(codec, old(pages), pages, id, limit, now, did, pageSaved)
      ensures compressionSavedBytes == old(compressionSavedBytes) + pageSaved
    {
      var page := pages[id];
      if page.pinned || page.compressed || page.accessCount > limit {
        return 0, 0;
      }
      var content := page.content;
      if content == [] {
        return 0, 0;
      }
      var data := codec.gzip(content);
      if |data| >= |content| {
        data := content;
      }
      pageSaved := if page.bytes - |data| > 0 then page.bytes - |data| else 0;
      compressionSavedBytes := compressionSavedBytes + pageSaved;
      pages := pages[id := page.(data := data, compressed := true, compressedSize := |data|, content := [], updatedAt := now)];
      did := 1;
    }

    /** The running total of resident bytes. */
    method CurrentBytes() returns (total: int)
      ensures total == TotalResident(pages)
    {
      total := 0;
      ghost var seen: map<PageId, int> := map[];
      var todo := pages.Keys;
      while todo != {}
        invariant todo <= pages.Keys
        invariant seen == map id | id in pages && id !in todo :: ResidentBytes(pages[id])
        invariant total == Sum(seen)
        decreases |todo|
      {
        var id :| id in todo;
        todo := todo - {id};
        total := total + ResidentBytes(pages[id]);
        SumUpdate(seen, id, ResidentBytes(pages[id]));
        seen := seen[id := ResidentBytes(pages[id])];
      }
      assert seen == Sizes(pages);
    }

    method CollectCandidates() returns (candidates: seq<PageId>)
      ensures NoDup(candidates)
      ensures forall id :: id in candidates <==> id in pages && Evictable(pages[id])
    {
      candidates := [];
      var todo := pages.Keys;
      while todo != {}
        invariant todo <= pages.Keys
        invariant NoDup(candidates)
        invariant forall id :: id in candidates <==> id in pages && id !in todo && Evictable(pages[id])
        decreases |todo|
      {
        var id :| id in todo;
        todo := todo - {id};
        if pages[id].refCount == 0 && !pages[id].pinned {
          candidates := candidates + [id];
        }
      }
    }

    /** Sorts the candidates, coldest first; the sort is not stable, so ties come out in any order. */
    method SortCandidates(candidates: seq<PageId>) returns (order: seq<PageId>)
      requires NoDup(candidates)
      requires forall id :: id in candidates <==> id in pages && Evictable(pages[id])
      ensures EvictionOrder(Value(), order)
    {
      order := [];
      for i := 0 to |candidates|
        invariant NoDup(order)
        invariant forall id :: id in order <==> id in candidates[..i]
        invariant forall a :: 0 <= a < |order| ==> order[a] in pages
        invariant forall a, b :: 0 <= a < b < |order| ==> !Colder(pages[order[b]], pages[order[a]])
      {
        var id := candidates[i];
        assert id in candidates;
        assert id !in candidates[..i];
        var k := 0;
        while k < |order| && !Colder(pages[id], pages[order[k]])
          invariant k <= |order|
          invariant forall a :: 0 <= a < k ==> !Colder(pages[id], pages[order[a]])
        {
          k := k + 1;
        }
        assert candidates[..i + 1] == candidates[..i] + [id];
        order := order[..k] + [id] + order[k..];
      }
      assert candidates[..|candidates|] == candidates;
    }

    method ScrubTables(id: PageId)
      modifies this`pageTables
      ensures pageTables == Scrub(old(pageTables), id)
    {
      ghost var before := pageTables;
      var todo := pageTables.Keys;
      while todo != {}
        invariant todo <= pageTables.Keys == before.Keys
        invariant forall a :: a in before ==>
          pageTables[a] == if a in todo then before[a] else Without(before[a], id)
        decreases |todo|
      {
        var agent :| agent in todo;
        todo := todo - {agent};
        var ids := RemoveString(pageTables[agent], id);
        pageTables := pageTables[agent := ids];
      }
    }

    /** `order` is how the sort happened to arrange the candidates, if it got that far. */
    method EvictColdPages(maxBytes: int) returns (evicted: nat, freed: int, ghost order: seq<PageId>)
      modifies this
      ensures if maxBytes < 0 || TotalResident(old(pages)) <= maxBytes then
                Value() == old(Value()) && evicted == 0 && freed == 0
              else
                && EvictionOrder(old(Value()), order)
                && (Value(), evicted, freed) == EvictStep(old(Value()), order, maxBytes)
    {
      var current := CurrentBytes();
      if maxBytes < 0 || current <= maxBytes {
        return 0, 0, [];
      }
      var candidates := CollectCandidates();
      var sorted := SortCandidates(candidates);
      order := sorted;
      evicted, freed := EvictInOrder(sorted, current, maxBytes);
      evictedPages := evictedPages + evicted;
    }

    /** The loop over the sorted candidates. */
    method EvictInOrder(sorted: seq<PageId>, resident: int, maxBytes: int) returns (evicted: nat, freed: int)
      requires EvictionOrder(Value(), sorted) && maxBytes >= 0 && resident == TotalResident(pages)
      modifies this`pages, this`pageTables
      ensures (Value().(evicted := old(evictedPages) + evicted), evicted, freed) == EvictStep(old(Value()), sorted, maxBytes)
    {
      ghost var whole := EvictFrom(Value(), sorted, maxBytes);
      evicted, freed := 0, 0;
      var current, i := resident, 0;
      EvictionStarts(Value(), sorted, maxBytes);
      while i < |sorted| && current > maxBytes
        invariant i <= |sorted| && current == TotalResident(pages) && evictedPages == old(evictedPages)
        invariant Evicting(whole, Value(), sorted, i, maxBytes, evicted, freed)
      {
        EvictionTurns(whole, Value(), sorted, i, maxBytes, evicted, freed);
        var size := ResidentBytes(pages[sorted[i]]);
        EvictPage(sorted[i]);
        current := current - size;
        freed := freed + size;
        evicted := evicted + 1;
        i := i + 1;
      }
      EvictionEnds(whole, Value(), sorted, i, maxBytes, evicted, freed);
    }

    /** Deletes a page and strikes it from every table. */
    method EvictPage(id: PageId)
      requires id in pages
      modifies this`pages, this`pageTables
      ensures Value() == Dropped(old(Value()), id)
    {
      pages := pages - {id};
      ScrubTables(id);
    }
  }
}
