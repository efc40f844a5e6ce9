/**
 * Byte accounting: what eviction drops and in which order, and the conservation of bytes and of
 * page counts over every run.
 */
module CvmBytes {
  import opened Prelude
  import opened CvmModel
  import opened CvmIndex

  // ----- resident totals -----

  lemma TotalUpdate(pages: map<PageId, Page>, id: PageId, p: Page)
    ensures TotalResident(pages[id := p])
         == TotalResident(pages) - (if id in pages then ResidentBytes(pages[id]) else 0) + ResidentBytes(p)
  {
    assert Sizes(pages[id := p]) == Sizes(pages)[id := ResidentBytes(p)];
    SumUpdate(Sizes(pages), id, ResidentBytes(p));
  }

  lemma TotalRemove(pages: map<PageId, Page>, id: PageId)
    requires id in pages
    ensures TotalResident(pages - {id}) == TotalResident(pages) - ResidentBytes(pages[id])
    ensures |pages - {id}| == |pages| - 1
  {
    assert Sizes(pages - {id}) == Sizes(pages) - {id};
    SumRemove(Sizes(pages), id);
    assert (pages - {id}).Keys == pages.Keys - {id};
  }

  /** Updates that leave the size of a page alone leave the total alone. */
  lemma TotalSame(pages: map<PageId, Page>, pages': map<PageId, Page>)
    requires pages.Keys == pages'.Keys
    requires forall id :: id in pages ==> ResidentBytes(pages'[id]) == ResidentBytes(pages[id])
    ensures TotalResident(pages') == TotalResident(pages)
    ensures |pages'| == |pages|
  {
    assert Sizes(pages) == Sizes(pages');
    assert |pages.Keys| == |pages| && |pages'.Keys| == |pages'|;
  }

  // ----- eviction -----

  function Drop(pages: map<PageId, Page>, ids: seq<PageId>): map<PageId, Page> {
    map id | id in pages && id !in ids :: pages[id]
  }

  ghost predicate Scrubbed(before: map<AgentId, seq<PageId>>, after: map<AgentId, seq<PageId>>, ids: seq<PageId>) {
    && after.Keys == before.Keys
    && forall a :: a in before ==>
         && (forall id :: id in after[a] <==> id in before[a] && id !in ids)
         && ((forall id :: id in ids ==> id !in before[a]) ==> after[a] == before[a])
  }

  lemma DropHead(pages: map<PageId, Page>, id: PageId, ids: seq<PageId>)
    ensures Drop(pages, [id] + ids) == Drop(pages - {id}, ids)
  {
  }

  /** The counters report the pages and the bytes that went. */
  lemma {:induction false} EvictsWhatItReports(s: State, order: seq<PageId>, maxBytes: int)
    requires NoDup(order) && forall id :: id in order ==> id in s.pages
    ensures var (t, n, freed) := EvictFrom(s, order, maxBytes);
      freed == TotalResident(s.pages) - TotalResident(t.pages) && |t.pages| == |s.pages| - n
    decreases |order|
  {
    if order != [] && TotalResident(s.pages) > maxBytes {
      assert order[0] in order;
      EvictsWhatItReports(s.(pages := s.pages - {order[0]}, tables := Scrub(s.tables, order[0])), order[1..], maxBytes);
      TotalRemove(s.pages, order[0]);
    }
  }

  /** The loop drops a prefix of the order. */
  lemma {:induction false} EvictsPrefix(s: State, order: seq<PageId>, maxBytes: int)
    requires NoDup(order) && forall id :: id in order ==> id in s.pages
    ensures var (t, n, freed) := EvictFrom(s, order, maxBytes);
      && n <= |order|
      && t.pages == Drop(s.pages, order[..n])
      && t == s.(pages := t.pages, tables := t.tables)
    decreases |order|
  {
    var (t, n, freed) := EvictFrom(s, order, maxBytes);
    if order == [] || TotalResident(s.pages) <= maxBytes {
      assert order[..n] == [];
      assert Drop(s.pages, []) == s.pages;
    } else {
      var id, rest := order[0], order[1..];
      assert id in order;
      var s1 := s.(pages := s.pages - {id}, tables := Scrub(s.tables, id));
      EvictsPrefix(s1, rest, maxBytes);
      DropHead(s.pages, id, rest[..n - 1]);
      assert order[..n] == [id] + rest[..n - 1];
    }
  }

  /** The same prefix leaves every page table. */
  lemma {:induction false} EvictsFromTables(s: State, order: seq<PageId>, maxBytes: int)
    requires NoDup(order) && forall id :: id in order ==> id in s.pages
    requires EvictFrom(s, order, maxBytes).1 <= |order|
    ensures var (t, n, _) := EvictFrom(s, order, maxBytes); Scrubbed(s.tables, t.tables, order[..n])
    decreases |order|
  {
    var (t, n, freed) := EvictFrom(s, order, maxBytes);
    if order != [] && TotalResident(s.pages) > maxBytes {
      var id, rest := order[0], order[1..];
      assert id in order;
      var s1 := s.(pages := s.pages - {id}, tables := Scrub(s.tables, id));
      EvictsFromTables(s1, rest, maxBytes);
      ScrubbedStep(s.tables, t.tables, id, rest[..n - 1]);
      assert order[..n] == [id] + rest[..n - 1];
    }
  }

  /** The prefix is the shortest one that meets the budget. */
  lemma {:induction false} EvictsNoMoreThanNeeded(s: State, order: seq<PageId>, maxBytes: int, k: nat)
    requires NoDup(order) && forall id :: id in order ==> id in s.pages
    requires EvictFrom(s, order, maxBytes).1 <= |order|
    ensures var (t, n, _) := EvictFrom(s, order, maxBytes);
      && (n == |order| || TotalResident(t.pages) <= maxBytes)
      && (k < n ==> TotalResident(Drop(s.pages, order[..k])) > maxBytes)
    decreases |order|
  {
    var (t, n, freed) := EvictFrom(s, order, maxBytes);
    if order != [] && TotalResident(s.pages) > maxBytes {
      var id, rest := order[0], order[1..];
      assert id in order;
      var s1 := s.(pages := s.pages - {id}, tables := Scrub(s.tables, id));
      if k == 0 {
        EvictsNoMoreThanNeeded(s1, rest, maxBytes, 0);
        assert Drop(s.pages, order[..0]) == s.pages;
      } else {
        EvictsNoMoreThanNeeded(s1, rest, maxBytes, k - 1);
        if k < n {
          DropHead(s.pages, id, rest[..k - 1]);
          assert order[..k] == [id] + rest[..k - 1];
        }
      }
    }
  }

  lemma ScrubbedStep(before: map<AgentId, seq<PageId>>, after: map<AgentId, seq<PageId>>, id: PageId, ids: seq<PageId>)
    requires Scrubbed(Scrub(before, id), after, ids)
    ensures Scrubbed(before, after, [id] + ids)
  {
    var mid := Scrub(before, id);
    forall a | a in before
      ensures forall x :: x in after[a] <==> x in before[a] && x !in [id] + ids
      ensures (forall x :: x in [id] + ids ==> x !in before[a]) ==> after[a] == before[a]
    {
      if forall x :: x in [id] + ids ==> x !in before[a] {
        assert id in [id] + ids;
        assert mid[a] == before[a];
        forall x | x in ids
          ensures x !in mid[a]
        {
          assert x in [id] + ids;
        }
      }
    }
  }

  /** A victim is never warmer than a candidate that survives. */
  lemma ColdestGoFirst(s: State, order: seq<PageId>, n: nat, v: PageId, q: PageId)
    requires EvictionOrder(s, order) && n <= |order|
    requires v in order[..n] && q in s.pages && Evictable(s.pages[q]) && q !in order[..n]
    ensures var p, r := s.pages[v], s.pages[q];
      p.accessCount < r.accessCount || (p.accessCount == r.accessCount && p.lastAccess <= r.lastAccess)
  {
    var i :| 0 <= i < n && order[i] == v;
    assert q in order;
    var j :| 0 <= j < |order| && order[j] == q;
    assert forall k :: 0 <= k < n ==> order[k] in order[..n];
  }

  /** What an eviction with budget `maxBytes` does, whichever way the sort breaks ties. */
  lemma EvictionMeetsBudget(s: State, order: seq<PageId>, maxBytes: int)
    requires EvictionOrder(s, order) && maxBytes >= 0
    ensures var (t, n, freed) := EvictStep(s, order, maxBytes);
      // it drops the shortest prefix of the order that meets the budget
      && n <= |order| && t.pages == Drop(s.pages, order[..n])
      && (n == |order| || TotalResident(t.pages) <= maxBytes)
      && (forall k: nat :: k < n ==> TotalResident(Drop(s.pages, order[..k])) > maxBytes)
      // the counters report what happened
      && freed == TotalResident(s.pages) - TotalResident(t.pages)
      && n == |s.pages| - |t.pages| == t.evicted - s.evicted
      // nothing else changes but the tables, which lose exactly the victims
      && t == s.(pages := t.pages, tables := t.tables, evicted := t.evicted)
      && Scrubbed(s.tables, t.tables, order[..n])
  {
    EvictsPrefix(s, order, maxBytes);
    EvictsWhatItReports(s, order, maxBytes);
    EvictsFromTables(s, order, maxBytes);
    EvictsNoMoreThanNeeded(s, order, maxBytes, 0);
    forall k: nat | k < EvictStep(s, order, maxBytes).1
      ensures TotalResident(Drop(s.pages, order[..k])) > maxBytes
    {
      EvictsNoMoreThanNeeded(s, order, maxBytes, k);
    }
  }

  /**
   * The same, read off the fields of the two states: the budget is met or only held and pinned pages are left,
   * only unheld and unpinned ones went, and those the least used first, on equal use the longest unused. Without a
   * budget nothing goes.
   */
  lemma EvictionTakesColdest(s: State, order: seq<PageId>, maxBytes: int)
    requires EvictionOrder(s, order)
    ensures var t := EvictStep(s, order, maxBytes).0;
      && (maxBytes < 0 ==> t == s)
      && (maxBytes < 0 || TotalResident(t.pages) <= maxBytes || forall id :: id in t.pages ==> t.pages[id].refCount > 0 || t.pages[id].pinned)
      && (forall id :: id in t.pages ==> id in s.pages && t.pages[id] == s.pages[id])
      && (forall v :: v in s.pages && v !in t.pages ==> s.pages[v].refCount == 0 && !s.pages[v].pinned)
      && (forall v, q :: v in s.pages && v !in t.pages && q in t.pages && t.pages[q].refCount == 0 && !t.pages[q].pinned ==>
            || s.pages[v].accessCount < t.pages[q].accessCount
            || (s.pages[v].accessCount == t.pages[q].accessCount && s.pages[v].lastAccess <= t.pages[q].lastAccess))
  {
    if maxBytes < 0 { return; }
    EvictionMeetsBudget(s, order, maxBytes);
    var (t, n, _) := EvictStep(s, order, maxBytes);
    forall v, q | v in s.pages && v !in t.pages && q in t.pages && Evictable(t.pages[q])
      ensures var p, r := s.pages[v], t.pages[q];
        p.accessCount < r.accessCount || (p.accessCount == r.accessCount && p.lastAccess <= r.lastAccess)
    {
      ColdestGoFirst(s, order, n, v, q);
    }
    if n == |order| {
      assert order[..n] == order;
    }
  }

  // ----- compression -----

  ghost function Gains(c: Codec, s: State, maxAccess: int): map<PageId, int> {
    map id | id in s.pages :: if Compressible(s.pages[id], maxAccess) then Saving(c, s.pages[id]) else 0
  }

  lemma CompressionTotals(c: Codec, s: State, maxAccess: int, now: int)
    requires AllSized(s)
    ensures TotalResident(s.pages)
         == TotalResident(CompressPages(c, s.pages, maxAccess, now)) + Sum(Gains(c, s, maxAccess))
  {
    var pages' := CompressPages(c, s.pages, maxAccess, now);
    SumSplit(Sizes(s.pages), Sizes(pages'), Gains(c, s, maxAccess));
  }

  lemma SavingsAreGains(c: Codec, s: State, maxAccess: int)
    ensures Savings(c, ColdPages(s, maxAccess)) == Sum(Gains(c, s, maxAccess)) >= 0
  {
    var cold := ColdPages(s, maxAccess);
    SumPadded(map id | id in cold :: Saving(c, cold[id]), Gains(c, s, maxAccess));
    SumNonNegative(Gains(c, s, maxAccess));
  }

  lemma CompressionCounts(c: Codec, s: State, maxAccess: int, now: int)
    ensures var (t, n, _) := CompressStep(c, s, maxAccess, now);
      && |t.pages| == |s.pages| && t.pages.Keys == s.pages.Keys
      && n == |set id | id in s.pages && t.pages[id].compressed && !s.pages[id].compressed|
  {
    var t := CompressStep(c, s, maxAccess, now).0;
    var cold := ColdPages(s, maxAccess);
    assert t.pages.Keys == s.pages.Keys;
    assert |t.pages.Keys| == |t.pages| && |s.pages.Keys| == |s.pages| && |cold.Keys| == |cold|;
    assert cold.Keys == set id | id in s.pages && t.pages[id].compressed && !s.pages[id].compressed;
  }

  /** Compression lowers the resident total by exactly the saving it reports. */
  lemma CompressionSavesWhatItReports(c: Codec, s: State, maxAccess: int, now: int)
    requires AllSized(s)
    ensures var (t, n, saved) := CompressStep(c, s, maxAccess, now);
      && saved == TotalResident(s.pages) - TotalResident(t.pages) == t.compressionSaved - s.compressionSaved
      && saved >= 0
      && |t.pages| == |s.pages|
      && n == |set id | id in s.pages && t.pages[id].compressed && !s.pages[id].compressed|
  {
    CompressionTotals(c, s, maxAccess, now);
    SavingsAreGains(c, s, maxAccess);
    CompressionCounts(c, s, maxAccess, now);
  }

  /** Zero entries do not change a sum. */
  lemma {:induction false} SumPadded(m: map<PageId, int>, padded: map<PageId, int>)
    requires m.Keys <= padded.Keys
    requires forall k :: k in padded ==> padded[k] == if k in m then m[k] else 0
    ensures Sum(m) == Sum(padded)
    decreases |padded|
  {
    if padded != map[] {
      var k :| k in padded;
      assert (padded - {k}).Keys == padded.Keys - {k};
      SumRemove(padded, k);
      SumPadded(m - {k}, padded - {k});
      if k in m {
        SumRemove(m, k);
      } else {
        assert m - {k} == m;
      }
    } else {
      assert m == map[];
    }
  }

  // ----- conservation over runs -----

  function CreatedBytes(c: Codec, s: State, call: Call): nat {
    if CreatesPage(c, s, call) then |call.content| else 0
  }

  predicate CreatesPage(c: Codec, s: State, call: Call) {
    call.Create? && call.kind != "" && c.hash(call.content) !in s.pages
  }

  ghost function FreedBytes(s: State, call: Call): int
    requires Enabled(s, call)
  {
    if call.Evict? then EvictStep(s, call.order, call.maxBytes).2 else 0
  }

  lemma CreateConserves(c: Codec, s: State, kind: string, content: Bytes, now: int)
    requires AllSized(s)
    ensures var t, n := CreateStep(c, s, kind, content, now).0, CreatedBytes(c, s, Create(kind, content));
      && TotalResident(t.pages) == TotalResident(s.pages) + n
      && |t.pages| == |s.pages| + (if CreatesPage(c, s, Create(kind, content)) then 1 else 0)
  {
    if kind != "" {
      var id := c.hash(content);
      var t := CreateStep(c, s, kind, content, now).0;
      TotalUpdate(s.pages, id, t.pages[id]);
      if id !in s.pages { assert t.pages.Keys == s.pages.Keys + {id}; } else { TotalSame(s.pages, t.pages); }
    }
  }

  /** Calls that only rewrite pages in place keep every size. */
  lemma QuietCallConserves(c: Codec, s: State, call: Call, now: int)
    requires AllSized(s) && (call.Mount? || call.Materialize? || call.Touch? || call.Pin? || call.Release?)
    ensures var t := Apply(c, s, call, now);
      && TotalResident(t.pages) == TotalResident(s.pages) && |t.pages| == |s.pages|
      && t.compressionSaved == s.compressionSaved && t.evicted == s.evicted
  {
    QuietCallResident(c, s, call, now);
    TotalSame(s.pages, Apply(c, s, call, now).pages);
  }

  lemma QuietCallResident(c: Codec, s: State, call: Call, now: int)
    requires call.Mount? || call.Materialize? || call.Touch? || call.Pin? || call.Release?
    ensures var t := Apply(c, s, call, now);
      && t.pages.Keys == s.pages.Keys
      && (forall id :: id in s.pages ==> ResidentBytes(t.pages[id]) == ResidentBytes(s.pages[id]))
      && t.compressionSaved == s.compressionSaved && t.evicted == s.evicted
  {
    match call
    case Materialize(a) => ReadsOnlyCountUse(c, s, Table(s, a), now);
    case _ =>
  }

  /** One call moves bytes between the three accounts and creates none elsewhere. */
  lemma CallConservesBytes(c: Codec, s: State, call: Call, now: int)
    requires AllSized(s) && Enabled(s, call)
    ensures var t := Apply(c, s, call, now);
      && TotalResident(t.pages) + t.compressionSaved + FreedBytes(s, call)
         == TotalResident(s.pages) + s.compressionSaved + CreatedBytes(c, s, call)
      && |t.pages| + t.evicted == |s.pages| + s.evicted + (if CreatesPage(c, s, call) then 1 else 0)
  {
    if call.Create? {
      CreateConserves(c, s, call.kind, call.content, now);
    } else if call.Compress? {
      CompressionSavesWhatItReports(c, s, call.maxAccess, now);
    } else if call.Evict? {
      if call.maxBytes >= 0 { EvictionMeetsBudget(s, call.order, call.maxBytes); }
    } else {
      QuietCallConserves(c, s, call, now);
    }
  }

  ghost function EverCreatedBytes(c: Codec, states: seq<State>, calls: seq<(Call, int)>, k: nat): int
    requires k <= |calls| && k < |states|
  {
    if k == 0 then 0
    else EverCreatedBytes(c, states, calls, k - 1) + CreatedBytes(c, states[k - 1], calls[k - 1].0)
  }

  ghost function EverCreatedPages(c: Codec, states: seq<State>, calls: seq<(Call, int)>, k: nat): int
    requires k <= |calls| && k < |states|
  {
    if k == 0 then 0
    else EverCreatedPages(c, states, calls, k - 1) + if CreatesPage(c, states[k - 1], calls[k - 1].0) then 1 else 0
  }

  ghost function EverFreedBytes(c: Codec, states: seq<State>, calls: seq<(Call, int)>, k: nat): int
    requires Runs(c, states, calls) && k <= |calls|
  {
    if k == 0 then 0
    else EverFreedBytes(c, states, calls, k - 1) + FreedBytes(states[k - 1], calls[k - 1].0)
  }

  /** Over every run: bytes created are resident, saved by compression, or freed; pages likewise. */
  lemma {:induction false} BytesConservedInEveryRun(c: Codec, states: seq<State>, calls: seq<(Call, int)>, k: nat)
    requires Runs(c, states, calls) && k <= |calls|
    ensures EverCreatedBytes(c, states, calls, k)
         == TotalResident(states[k].pages) + states[k].compressionSaved + EverFreedBytes(c, states, calls, k)
    ensures EverCreatedPages(c, states, calls, k) == |states[k].pages| + states[k].evicted
  {
    if k == 0 {
      assert Sizes(EMPTY_STORE.pages) == map[];
    } else {
      BytesConservedInEveryRun(c, states, calls, k - 1);
      IndexInEveryRun(c, states, calls, k - 1);
      CallConservesBytes(c, states[k - 1], calls[k - 1].0, calls[k - 1].1);
    }
  }
}
