/** What each policy's choice means for the candidates it chose from. */
module SchedulerChoice {
  import opened Prelude
  import opened Sorting
  import opened AvpModel
  import opened SchedulerModel

  /** `i` is the first candidate that none precedes in the order. */
  ghost predicate FirstMinimum(less: (Avp, Avp) -> bool, candidates: seq<Avp>, i: nat) {
    && i < |candidates|
    && (forall j :: 0 <= j < |candidates| ==> !less(candidates[j], candidates[i]))
    && (forall j :: 0 <= j < i ==> less(candidates[i], candidates[j]))
  }

  /** FIFO picks the earliest created candidate, the first of them on a tie. */
  lemma FifoIsEarliest(candidates: seq<Avp>) returns (i: nat)
    requires candidates != []
    ensures FirstMinimum(CreatedLess, candidates, i) && Fifo(candidates) == candidates[i]
    ensures forall j :: 0 <= j < |candidates| ==> candidates[i].createdAt <= candidates[j].createdAt
  {
    OrdersAreWeak();
    i := StableSortHead(CreatedLess, candidates);
    assert forall j :: 0 <= j < |candidates| ==> !CreatedLess(candidates[j], candidates[i]);
  }

  /** Token-CFS picks the lowest vruntime, then the earliest created, then the first. */
  lemma TokenCfsIsLowest(candidates: seq<Avp>) returns (i: nat)
    requires candidates != []
    ensures FirstMinimum(VRuntimeLess, candidates, i) && MinVRuntime(candidates) == candidates[i]
    ensures forall j :: 0 <= j < |candidates| ==> candidates[i].vruntime <= candidates[j].vruntime
  {
    OrdersAreWeak();
    i := StableSortHead(VRuntimeLess, candidates);
    assert forall j :: 0 <= j < |candidates| ==> !VRuntimeLess(candidates[j], candidates[i]);
  }

  // ----- prefix affinity -----

  predicate Near(c: Avp, base: Avp, threshold: U64) {
    VRuntimeDistance(c.vruntime, base.vruntime) <= threshold
  }

  /** The scan returns the base, or the first near candidate that shares the most pages. */
  lemma {:induction false} AffinityScanIsBest(candidates: seq<Avp>, shared: map<string, nat>, base: Avp, threshold: U64)
    ensures var best := AffinityScan(candidates, shared, base, threshold);
      && Lookup(shared, best.id) >= Lookup(shared, base.id)
      && (forall c :: c in candidates && Near(c, base, threshold) ==> Lookup(shared, c.id) <= Lookup(shared, best.id))
      && (best == base ||
            exists i :: 0 <= i < |candidates| && candidates[i] == best && Near(best, base, threshold)
              && Lookup(shared, best.id) > Lookup(shared, base.id)
              && forall j :: 0 <= j < i && Near(candidates[j], base, threshold)
                   ==> Lookup(shared, candidates[j].id) < Lookup(shared, best.id))
  {
    if candidates != [] {
      var front, c := candidates[..|candidates| - 1], candidates[|candidates| - 1];
      AffinityScanIsBest(front, shared, base, threshold);
      assert candidates == front + [c];
      var prev := AffinityScan(front, shared, base, threshold);
      var best := AffinityScan(candidates, shared, base, threshold);
      if best != prev {
        assert candidates[|candidates| - 1] == best;
        forall j | 0 <= j < |candidates| - 1 && Near(candidates[j], base, threshold)
          ensures Lookup(shared, candidates[j].id) < Lookup(shared, best.id)
        {
          assert candidates[j] == front[j] && front[j] in front;
        }
      } else if best != base {
        var i :| 0 <= i < |front| && front[i] == best && Near(best, base, threshold)
          && Lookup(shared, best.id) > Lookup(shared, base.id)
          && forall j :: 0 <= j < i && Near(front[j], base, threshold)
               ==> Lookup(shared, front[j].id) < Lookup(shared, best.id);
        assert candidates[i] == best;
        assert forall j :: 0 <= j < i ==> candidates[j] == front[j];
      }
    }
  }

  /** With unique ids the count kept for a candidate is the pages it lists that the last pick listed. */
  lemma {:induction false} SharedPagesCounts(last: Option<Avp>, candidates: seq<Avp>, id: string)
    requires UniqueIds(candidates)
    ensures forall c :: c in candidates ==>
              Lookup(SharedPages(last, candidates), c.id) == CountIn(AllPages(c), LastPages(last))
    ensures (forall c :: c in candidates ==> c.id != id) ==> Lookup(SharedPages(last, candidates), id) == 0
  {
    if candidates != [] {
      var front, c := candidates[..|candidates| - 1], candidates[|candidates| - 1];
      assert candidates == front + [c];
      SharedPagesCounts(last, front, c.id);
      assert forall d :: d in front ==> d.id != c.id;
      SharedPagesCounts(last, front, id);
      assert c in candidates;
    }
  }

  /** Prefix affinity: among the candidates near the token-CFS pick, the most shared pages win. */
  lemma PrefixAffinityMaximizesSharing(last: Option<Avp>, threshold: U64, candidates: seq<Avp>)
    requires candidates != [] && UniqueIds(candidates) && last.Some?
    ensures var base, best := MinVRuntime(candidates), PrefixAffinity(last, threshold, candidates);
      var shares := (c: Avp) => CountIn(AllPages(c), LastPages(last));
      && best in candidates && base in candidates
      && (forall c :: c in candidates && Near(c, base, threshold) ==> shares(c) <= shares(best))
      && (best == base || (Near(best, base, threshold) && shares(best) > shares(base)))
  {
    var i := TokenCfsIsLowest(candidates);
    var base := MinVRuntime(candidates);
    var shared := SharedPages(last, candidates);
    SharedPagesCounts(last, candidates, "");
    AffinityScanIsBest(candidates, shared, base, threshold);
    assert base in candidates;
  }

  // ----- the float distance -----

  predicate DistanceExact(left: U64, right: U64) {
    VRuntimeDistance(left, right) == if left >= right then left - right else right - left
  }

  /** A whole number up to 2^53 is a float. */
  lemma FloatExact(n: nat)
    requires n <= EXACT
    ensures Float(n) == n
  {
    if n == EXACT { assert Ulp(EXACT) == 2 * Ulp(EXACT / 2); }
  }

  /** Between 2^53 and 2^53 + 2 lies no float, and the tie goes down. */
  lemma FloatAboveExact()
    ensures Float(EXACT + 1) == EXACT
  {
    assert Ulp(EXACT + 1) == 2 * Ulp((EXACT + 1) / 2);
  }

  /** Up to 2^53 the float distance is the true one. */
  lemma DistanceExactUpTo(left: U64, right: U64)
    requires left <= EXACT && right <= EXACT
    ensures DistanceExact(left, right)
  {
    FloatExact(left);
    FloatExact(right);
    FloatExact(if left >= right then left - right else right - left);
  }

  /** The float distance is the true one for all vruntimes up to a bound exactly when the bound is at most 2^53. */
  lemma DistanceExactIff(bound: U64)
    ensures (forall left: U64, right: U64 :: left <= bound && right <= bound ==> DistanceExact(left, right)) <==> bound <= EXACT
  {
    if bound <= EXACT {
      forall left: U64, right: U64 | left <= bound && right <= bound
        ensures DistanceExact(left, right)
      {
        DistanceExactUpTo(left, right);
      }
    } else {
      FloatExact(EXACT);
      FloatAboveExact();
      assert !DistanceExact(EXACT, EXACT + 1);
    }
  }

  // ----- resource awareness -----

  lemma Round3Monotone(x: real, y: real)
    requires x <= y
    ensures Round3(x) <= Round3(y)
  {
    if x >= 0.0 {
      FloorMonotone(x * 1000.0 + 0.5, y * 1000.0 + 0.5);
    } else if y < 0.0 {
      FloorMonotone(-y * 1000.0 + 0.5, -x * 1000.0 + 0.5);
    } else {
      assert (-x * 1000.0 + 0.5).Floor >= 0;
      assert (y * 1000.0 + 0.5).Floor >= 0;
    }
  }

  lemma FloorMonotone(x: real, y: real)
    requires x <= y
    ensures x.Floor <= y.Floor
  {
  }

  lemma VRuntimeScoreAntitone(v: U64, w: U64)
    requires v <= w
    ensures VRuntimeScore(v) >= VRuntimeScore(w)
  {
    var a, b := 1.0 + v as real, 1.0 + w as real;
    assert 1.0 <= a <= b;
    var x, y := 1000.0 / a, 1000.0 / b;
    assert x * a == 1000.0 && y * b == 1000.0;
    if x < y {
      assert y > 0.0;
      ProductMonotone(x, y, a, b);
    }
  }

  lemma ProductMonotone(x: real, y: real, a: real, b: real)
    requires 0.0 <= x < y && 0.0 < a <= b
    ensures x * a < y * b
  {
    assert x * a < y * a;
    assert y * a <= y * b;
  }

  predicate CpuAtMost(c: Option<CpuStat>, d: Option<CpuStat>) {
    c.None? || (d.Some? && c.value.nrThrottled <= d.value.nrThrottled && c.value.throttledUsec <= d.value.throttledUsec)
  }

  /** `c` is better than or equal to `d` on every input of the score. */
  predicate Dominates(c: Avp, cShared: nat, d: Avp, dShared: nat) {
    && c.vruntime <= d.vruntime && cShared >= dShared && c.priority >= d.priority
    && c.memoryCurrent <= d.memoryCurrent && c.pidsCurrent <= d.pidsCurrent
    && CpuAtMost(c.cpuStat, d.cpuStat)
  }

  lemma CpuPressureMonotone(global: real, c: Option<CpuStat>, d: Option<CpuStat>)
    requires CpuAtMost(c, d)
    ensures CpuPressure(global, c) <= CpuPressure(global, d)
  {
  }

  /** A candidate that is no worse on every input never scores lower, under any pressure. */
  lemma DominantNeverScoresLower(pressure: Pressure, c: Avp, cShared: nat, d: Avp, dShared: nat)
    requires Dominates(c, cShared, d, dShared)
    ensures Score(pressure, c, cShared) >= Score(pressure, d, dShared)
  {
    VRuntimeScoreAntitone(c.vruntime, d.vruntime);
    CpuPressureMonotone(Normalize(pressure).cpuThrottle, c.cpuStat, d.cpuStat);
    var global := Normalize(pressure);
    var raw := (a: Avp, shared: nat) =>
      VRuntimeScore(a.vruntime) + shared as real * 30.0 + a.priority as real * 5.0
      - MaxReal(global.memory, Clamp(a.memoryCurrent as real / 1073741824.0, 0.0, 1.0)) * 180.0
      - MaxReal(global.pids, Clamp(a.pidsCurrent as real / 64.0, 0.0, 1.0)) * 160.0
      - CpuPressure(global.cpuThrottle, a.cpuStat) * 120.0 - global.psi * 90.0;
    assert c.memoryCurrent as real / 1073741824.0 <= d.memoryCurrent as real / 1073741824.0;
    assert c.pidsCurrent as real / 64.0 <= d.pidsCurrent as real / 64.0;
    Round3Monotone(raw(d, dShared), raw(c, cShared));
  }

  /** Resource-aware picks the top score; ties go to the earliest created, then to the first. */
  lemma {:induction false} ResourceAwareIsTop(pressure: Pressure, shared: map<string, nat>, candidates: seq<Avp>)
    returns (i: nat)
    requires candidates != []
    ensures i < |candidates| && BestScore(pressure, shared, candidates) == candidates[i]
    ensures forall j :: 0 <= j < |candidates| ==> !Beats(pressure, shared, candidates[j], candidates[i])
    ensures forall j :: 0 <= j < i ==> Beats(pressure, shared, candidates[i], candidates[j])
  {
    var front, c := candidates[..|candidates| - 1], candidates[|candidates| - 1];
    assert candidates == front + [c];
    if |candidates| == 1 {
      i := 0;
    } else {
      var k := ResourceAwareIsTop(pressure, shared, front);
      if Beats(pressure, shared, c, front[k]) {
        i := |candidates| - 1;
        forall j | 0 <= j < i
          ensures Beats(pressure, shared, c, candidates[j])
        {
          assert candidates[j] == front[j] && !Beats(pressure, shared, front[j], front[k]);
        }
      } else {
        i := k;
        forall j | 0 <= j < |candidates|
          ensures !Beats(pressure, shared, candidates[j], candidates[i])
          ensures j < i ==> Beats(pressure, shared, candidates[i], candidates[j])
        {
          if j < |front| { assert candidates[j] == front[j]; }
        }
      }
    }
  }

  /** Every policy picks one of the candidates. */
  lemma ChooseIsCandidate(policy: string, threshold: U64, last: Option<Avp>, pressure: Pressure, candidates: seq<Avp>)
    requires candidates != []
    ensures Choose(policy, threshold, last, pressure, candidates) in candidates
  {
    if policy == RESOURCE_AWARE {
      var k := ResourceAwareIsTop(pressure, SharedPages(last, candidates), candidates);
    } else if policy == TOKEN_CFS || policy == PREFIX_AFFINITY {
      var j := TokenCfsIsLowest(candidates);
      AffinityScanIsBest(candidates, SharedPages(last, candidates), MinVRuntime(candidates), threshold);
    } else {
      var i := FifoIsEarliest(candidates);
    }
  }

  /** How far above the minimum vruntime a pick of the policy may lie. */
  function Window(policy: string, threshold: U64): nat
    requires policy == TOKEN_CFS || policy == PREFIX_AFFINITY
  {
    if policy == TOKEN_CFS then 0 else threshold
  }

  /** The pick is within the window of every candidate's vruntime. */
  ghost predicate PicksInWindow(policy: string, threshold: U64, last: Option<Avp>, pressure: Pressure, candidates: seq<Avp>)
    requires candidates != [] && (policy == TOKEN_CFS || policy == PREFIX_AFFINITY)
  {
    forall c :: c in candidates ==>
      Choose(policy, threshold, last, pressure, candidates).vruntime <= c.vruntime + Window(policy, threshold)
  }

  /** Token-CFS always picks in its window, prefix affinity while vruntimes are at most 2^53. */
  lemma ChooseWithinWindow(policy: string, threshold: U64, last: Option<Avp>, pressure: Pressure, candidates: seq<Avp>)
    requires candidates != [] && (policy == TOKEN_CFS || policy == PREFIX_AFFINITY)
    requires policy == PREFIX_AFFINITY ==> forall c :: c in candidates ==> c.vruntime <= EXACT
    ensures PicksInWindow(policy, threshold, last, pressure, candidates)
  {
    var i := TokenCfsIsLowest(candidates);
    var base := MinVRuntime(candidates);
    assert forall c :: c in candidates ==> base.vruntime <= c.vruntime;
    AffinityScanIsBest(candidates, SharedPages(last, candidates), base, threshold);
    var best := Choose(policy, threshold, last, pressure, candidates);
    if best != base {
      assert Near(best, base, threshold);
      DistanceExactUpTo(best.vruntime, base.vruntime);
    }
  }

  /** Just above 2^53 the window fails at every threshold: an agent threshold + 1 above the minimum seems near enough. */
  lemma WindowFailsAbove(threshold: U64, low: Avp, high: Avp, last: Avp, pressure: Pressure)
    requires threshold <= EXACT && low.vruntime == EXACT - threshold && high.vruntime == EXACT + 1 && low.id != high.id
    requires low.pageTable == [] && low.contextPages == [] && high.contextPages == []
    requires high.pageTable == ["p"] && last.pageTable == ["p"]
    ensures Choose(PREFIX_AFFINITY, threshold, Some(last), pressure, [low, high]) == high
    ensures !PicksInWindow(PREFIX_AFFINITY, threshold, Some(last), pressure, [low, high])
  {
    var candidates := [low, high];
    var i := TokenCfsIsLowest(candidates);
    assert MinVRuntime(candidates) == low;
    FloatExact(EXACT - threshold);
    FloatExact(threshold);
    FloatAboveExact();
    assert VRuntimeDistance(EXACT + 1, EXACT - threshold) == threshold;
    SharedPagesCounts(Some(last), candidates, "");
    assert candidates[..1] == [low] && [low][..0] == [];
    assert low in candidates && high in candidates;
    assert "p" in AllPages(last);
    assert AllPages(high) == ["p"] && AllPages(low) == [];
    assert CountIn(["p"], LastPages(Some(last))) == 1 by { assert ["p"][..0] == []; }
    var shared := SharedPages(Some(last), candidates);
    assert AffinityScan([low], shared, low, threshold) == low;
  }

  /** An agent that differs from others in these three only. */
  function Agent(id: string, vruntime: U64, pages: seq<string>): Avp {
    Avp(id, "", "", Ready, 0, 0, vruntime, 0, pages, [], 0, 0, 0, None, 0, 0, 0)
  }

  /** For all candidates with vruntimes up to a bound. */
  ghost predicate WindowHoldsUpTo(threshold: U64, bound: U64) {
    forall last: Option<Avp>, pressure: Pressure, candidates: seq<Avp> ::
      candidates != [] && (forall c :: c in candidates ==> c.vruntime <= bound) ==>
        PicksInWindow(PREFIX_AFFINITY, threshold, last, pressure, candidates)
  }

  /** At every threshold up to 2^53, prefix affinity keeps its window for vruntimes up to a bound exactly when that is at most 2^53. */
  lemma WindowHoldsIff(threshold: U64, bound: U64)
    requires threshold <= EXACT
    ensures WindowHoldsUpTo(threshold, bound) <==> bound <= EXACT
  {
    if bound <= EXACT {
      forall last: Option<Avp>, pressure: Pressure, candidates: seq<Avp>
        | candidates != [] && forall c :: c in candidates ==> c.vruntime <= bound
        ensures PicksInWindow(PREFIX_AFFINITY, threshold, last, pressure, candidates)
      {
        ChooseWithinWindow(PREFIX_AFFINITY, threshold, last, pressure, candidates);
      }
    } else {
      var low, high := Agent("a", EXACT - threshold, []), Agent("b", EXACT + 1, ["p"]);
      var last := Agent("c", 0, ["p"]);
      WindowFailsAbove(threshold, low, high, last, Pressure(0.0, 0.0, 0.0, 0.0));
      assert forall c :: c in [low, high] ==> c.vruntime <= bound;
    }
  }
}
