/** What each policy, by its name, makes of the fields of its candidates. */
module SchedulerPolicies {
  import opened Prelude
  import opened Sorting
  import opened AvpModel
  import opened SchedulerModel
  import opened SchedulerChoice

  /** First come, first served under "fifo" and every unknown policy: the first candidate created earliest. */
  lemma FifoPicks(policy: string, threshold: U64, last: Option<Avp>, pressure: Pressure, candidates: seq<Avp>) returns (i: nat)
    requires candidates != []
    requires policy !in {"token-cfs", "token-cfs-prefix-affinity", "token-cfs-prefix-affinity-resource-aware"}
    ensures i < |candidates| && Choose(policy, threshold, last, pressure, candidates) == candidates[i]
    ensures forall j :: 0 <= j < |candidates| ==> candidates[i].createdAt <= candidates[j].createdAt
    ensures forall j :: 0 <= j < i ==> candidates[i].createdAt < candidates[j].createdAt
  {
    i := FifoIsEarliest(candidates);
  }

  /** `x` runs before `y`: at a lower vruntime, or at the same one and created earlier. */
  predicate RunsBefore(x: Avp, y: Avp) {
    x.vruntime < y.vruntime || (x.vruntime == y.vruntime && x.createdAt < y.createdAt)
  }

  /** Token-CFS picks the first candidate that none runs before. */
  lemma TokenCfsPicks(policy: string, threshold: U64, last: Option<Avp>, pressure: Pressure, candidates: seq<Avp>) returns (i: nat)
    requires candidates != [] && policy == "token-cfs"
    ensures i < |candidates| && Choose(policy, threshold, last, pressure, candidates) == candidates[i]
    ensures forall j :: 0 <= j < |candidates| ==> !RunsBefore(candidates[j], candidates[i])
    ensures forall j :: 0 <= j < i ==> RunsBefore(candidates[i], candidates[j])
  {
    i := TokenCfsIsLowest(candidates);
    assert forall j :: 0 <= j < |candidates| ==> !VRuntimeLess(candidates[j], candidates[i]);
    assert forall j :: 0 <= j < i ==> VRuntimeLess(candidates[i], candidates[j]);
  }

  // ----- pages shared with the last pick -----

  /** The positions of a list whose page the last pick holds. */
  ghost function Hits(last: Avp, pages: seq<string>): set<int> {
    set i | 0 <= i < |pages| && (pages[i] in last.pageTable || pages[i] in last.contextPages)
  }

  /** How many pages the candidate shares with the last pick, in its page table and its context pages. */
  ghost function SharedWith(last: Option<Avp>, c: Avp): nat {
    if last.None? then 0 else |Hits(last.value, c.pageTable)| + |Hits(last.value, c.contextPages)|
  }

  lemma {:induction false} CountsHits(last: Avp, pages: seq<string>)
    ensures CountIn(pages, LastPages(Some(last))) == |Hits(last, pages)|
  {
    if pages != [] {
      var n := |pages| - 1;
      CountsHits(last, pages[..n]);
      assert Hits(last, pages) ==
        Hits(last, pages[..n]) + if pages[n] in last.pageTable || pages[n] in last.contextPages then {n} else {};
    }
  }

  lemma {:induction false} CountInAppend(xs: seq<string>, ys: seq<string>, last: set<string>)
    ensures CountIn(xs + ys, last) == CountIn(xs, last) + CountIn(ys, last)
  {
    if ys == [] {
      assert xs + ys == xs;
    } else {
      assert (xs + ys)[..|xs + ys| - 1] == xs + ys[..|ys| - 1];
      CountInAppend(xs, ys[..|ys| - 1], last);
    }
  }

  lemma CountsShared(last: Option<Avp>, c: Avp)
    ensures CountIn(AllPages(c), LastPages(last)) == SharedWith(last, c)
  {
    if last.None? {
      CountInNothing(AllPages(c));
    } else {
      CountsHits(last.value, c.pageTable);
      CountsHits(last.value, c.contextPages);
      CountInAppend(c.pageTable, c.contextPages, LastPages(last));
    }
  }

  /** With unique ids the scheduler's count for a candidate is what it shares. */
  lemma CountedShares(last: Option<Avp>, candidates: seq<Avp>)
    requires UniqueIds(candidates)
    ensures forall c :: c in candidates ==> Lookup(SharedPages(last, candidates), c.id) == SharedWith(last, c)
  {
    SharedPagesCounts(last, candidates, "");
    forall c | c in candidates
      ensures Lookup(SharedPages(last, candidates), c.id) == SharedWith(last, c)
    {
      CountsShared(last, c);
    }
  }

  // ----- prefix affinity -----

  /**
   * Prefix affinity starts from the token-CFS pick `b` and ends with it, or with the first candidate near it that
   * shares more pages with the last pick than `b` and as many as any near candidate.
   */
  lemma PrefixAffinityPicks(policy: string, threshold: U64, last: Option<Avp>, pressure: Pressure, candidates: seq<Avp>)
    returns (b: nat, i: nat)
    requires candidates != [] && UniqueIds(candidates) && policy == "token-cfs-prefix-affinity"
    ensures b < |candidates| && i < |candidates| && Choose(policy, threshold, last, pressure, candidates) == candidates[i]
    ensures forall j :: 0 <= j < |candidates| ==> !RunsBefore(candidates[j], candidates[b])
    ensures forall j :: 0 <= j < b ==> RunsBefore(candidates[b], candidates[j])
    ensures last.None? ==> i == b
    ensures forall c :: c in candidates && Near(c, candidates[b], threshold) ==>
              SharedWith(last, c) <= SharedWith(last, candidates[i])
    ensures i != b ==>
      && Near(candidates[i], candidates[b], threshold) && SharedWith(last, candidates[i]) > SharedWith(last, candidates[b])
      && forall j :: 0 <= j < i && Near(candidates[j], candidates[b], threshold) ==>
           SharedWith(last, candidates[j]) < SharedWith(last, candidates[i])
  {
    b := TokenCfsPicks("token-cfs", threshold, last, pressure, candidates);
    i := b;
    var base, shared := candidates[b], SharedPages(last, candidates);
    CountedShares(last, candidates);
    if last.Some? {
      AffinityScanIsBest(candidates, shared, base, threshold);
      var best := AffinityScan(candidates, shared, base, threshold);
      if best != base {
        i :| 0 <= i < |candidates| && candidates[i] == best && Near(best, base, threshold)
          && Lookup(shared, best.id) > Lookup(shared, base.id)
          && forall j :: 0 <= j < i && Near(candidates[j], base, threshold)
               ==> Lookup(shared, candidates[j].id) < Lookup(shared, best.id);
      }
    }
  }

  /** For vruntimes up to 2^53 near means at most the threshold apart. */
  lemma NearMeansWithin(c: Avp, base: Avp, threshold: U64)
    requires c.vruntime <= 0x20_0000_0000_0000 && base.vruntime <= c.vruntime
    ensures Near(c, base, threshold) <==> c.vruntime <= base.vruntime + threshold
  {
    DistanceExactUpTo(c.vruntime, base.vruntime);
  }

  // ----- resource awareness -----

  /** `x` outscores `y`, or scores the same and was created earlier. */
  ghost predicate ComesFirst(pressure: Pressure, last: Option<Avp>, x: Avp, y: Avp) {
    var p, q := Score(pressure, x, SharedWith(last, x)), Score(pressure, y, SharedWith(last, y));
    p > q || (p == q && x.createdAt < y.createdAt)
  }

  /** Resource-aware picks the first candidate before which none comes. */
  lemma ResourceAwarePicks(policy: string, threshold: U64, last: Option<Avp>, pressure: Pressure, candidates: seq<Avp>)
    returns (i: nat)
    requires candidates != [] && UniqueIds(candidates) && policy == "token-cfs-prefix-affinity-resource-aware"
    ensures i < |candidates| && Choose(policy, threshold, last, pressure, candidates) == candidates[i]
    ensures forall j :: 0 <= j < |candidates| ==> !ComesFirst(pressure, last, candidates[j], candidates[i])
    ensures forall j :: 0 <= j < i ==> ComesFirst(pressure, last, candidates[i], candidates[j])
  {
    var shared := SharedPages(last, candidates);
    i := ResourceAwareIsTop(pressure, shared, candidates);
    CountedShares(last, candidates);
    forall j | 0 <= j < |candidates|
      ensures !ComesFirst(pressure, last, candidates[j], candidates[i])
      ensures j < i ==> ComesFirst(pressure, last, candidates[i], candidates[j])
    {
      assert candidates[j] in candidates && candidates[i] in candidates;
      assert !Beats(pressure, shared, candidates[j], candidates[i]);
      assert j < i ==> Beats(pressure, shared, candidates[i], candidates[j]);
    }
  }

  /** `x` is the larger of two loads cut to 0..1, give or take half a thousandth. */
  predicate Load(x: real, global: real, own: real) {
    var larger := if global > own then global else own;
    var cut := if larger < 0.0 then 0.0 else if larger > 1.0 then 1.0 else larger;
    cut - 0.0005 <= x <= cut + 0.0005
  }

  lemma Round3Near(x: real)
    ensures x - 0.0005 <= Round3(x) <= x + 0.0005
  {
    var y := if x >= 0.0 then x * 1000.0 + 0.5 else -x * 1000.0 + 0.5;
    assert y.Floor as real <= y < y.Floor as real + 1.0;
  }

  lemma NormalizedLoads(p: Pressure)
    ensures var r := Normalize(p);
      Load(r.memory, p.memory, 0.0) && Load(r.pids, p.pids, 0.0) && Load(r.cpuThrottle, p.cpuThrottle, 0.0) && Load(r.psi, p.psi, 0.0)
  {
    Round3Near(Clamp(p.memory, 0.0, 1.0));
    Round3Near(Clamp(p.pids, 0.0, 1.0));
    Round3Near(Clamp(p.cpuThrottle, 0.0, 1.0));
    Round3Near(Clamp(p.psi, 0.0, 1.0));
  }

  /** The load of a candidate of its own: its throttled periods over 100 or its throttled time over 10 s, if larger. */
  function Throttled(c: Avp): real {
    if c.cpuStat.None? then 0.0
    else
      var periods, time := c.cpuStat.value.nrThrottled as real / 100.0, c.cpuStat.value.throttledUsec as real / 10000000.0;
      if periods > time then periods else time
  }

  lemma LoadsOf(pressure: Pressure, c: Avp) returns (m: real, q: real, t: real, u: real)
    ensures Load(m, pressure.memory, c.memoryCurrent as real / 1073741824.0) && Load(q, pressure.pids, c.pidsCurrent as real / 64.0)
    ensures Load(t, pressure.cpuThrottle, Throttled(c)) && Load(u, pressure.psi, 0.0)
    ensures m == MaxReal(Normalize(pressure).memory, Clamp(c.memoryCurrent as real / 1073741824.0, 0.0, 1.0))
    ensures q == MaxReal(Normalize(pressure).pids, Clamp(c.pidsCurrent as real / 64.0, 0.0, 1.0))
    ensures t == CpuPressure(Normalize(pressure).cpuThrottle, c.cpuStat) && u == Normalize(pressure).psi
  {
    var global := Normalize(pressure);
    m := MaxReal(global.memory, Clamp(c.memoryCurrent as real / 1073741824.0, 0.0, 1.0));
    q := MaxReal(global.pids, Clamp(c.pidsCurrent as real / 64.0, 0.0, 1.0));
    t, u := CpuPressure(global.cpuThrottle, c.cpuStat), global.psi;
    NormalizedLoads(pressure);
  }

  /**
   * What the score weighs, to half a thousandth: low vruntime, 30 a shared page and 5 a priority level, against 180,
   * 160, 120 and 90 for full memory, process, throttling and stall loads.
   */
  lemma ScoreWeighs(pressure: Pressure, c: Avp, shared: nat) returns (m: real, q: real, t: real, u: real)
    ensures Load(m, pressure.memory, c.memoryCurrent as real / 1073741824.0) && Load(q, pressure.pids, c.pidsCurrent as real / 64.0)
    ensures Load(t, pressure.cpuThrottle, Throttled(c)) && Load(u, pressure.psi, 0.0)
    ensures var total := 1000.0 / (1.0 + c.vruntime as real) + 30.0 * shared as real + 5.0 * c.priority as real
                         - 180.0 * m - 160.0 * q - 120.0 * t - 90.0 * u;
      total - 0.0005 <= Score(pressure, c, shared) <= total + 0.0005
  {
    m, q, t, u := LoadsOf(pressure, c);
    Round3Near(VRuntimeScore(c.vruntime) + shared as real * 30.0 + c.priority as real * 5.0
               - m * 180.0 - q * 160.0 - t * 120.0 - u * 90.0);
  }

  // ----- who is eligible -----

  /** `ready` holds, in order, the candidates at `at`, which are the positions of the READY ones. */
  ghost predicate ReadyAt(candidates: seq<Avp>, ready: seq<Avp>, at: seq<int>) {
    && |at| == |ready|
    && (forall k, l :: 0 <= k < l < |at| ==> at[k] < at[l])
    && (forall k :: 0 <= k < |at| ==> 0 <= at[k] < |candidates| && ready[k] == candidates[at[k]])
    && (forall i :: 0 <= i < |candidates| ==> (candidates[i].state == Ready <==> i in at))
  }

  lemma OneMoreCandidate(candidates: seq<Avp>, ready: seq<Avp>, at: seq<int>, c: Avp)
    requires ReadyAt(candidates, ready, at)
    ensures if c.state == Ready then ReadyAt(candidates + [c], ready + [c], at + [|candidates|])
            else ReadyAt(candidates + [c], ready, at)
  {
  }

  /** The scheduler chooses among exactly the ready candidates, in the order given. */
  lemma {:induction false} ReadyInOrder(candidates: seq<Avp>) returns (at: seq<int>)
    ensures ReadyAt(candidates, ReadyAgents(candidates), at)
  {
    at := [];
    if candidates != [] {
      var n := |candidates| - 1;
      var front := ReadyInOrder(candidates[..n]);
      OneMoreCandidate(candidates[..n], ReadyAgents(candidates[..n]), front, candidates[n]);
      assert candidates == candidates[..n] + [candidates[n]];
      at := if candidates[n].state == Ready then front + [n] else front;
    }
  }
}
