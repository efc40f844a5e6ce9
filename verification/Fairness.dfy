/** Select followed by charge, repeated: bounds on the vruntime spread, on waiting, and on weight. */
module Fairness {
  import opened Prelude
  import opened AvpModel
  import opened SchedulerModel
  import opened SchedulerChoice

  const INT_LIMIT := 0x8000_0000_0000_0000

  /** Agent `pick` is charged and nobody else; page tables and other fields may change freely. */
  ghost predicate Charged(agents: seq<Avp>, pick: nat, tokens: int, agents': seq<Avp>) {
    && pick < |agents| && |agents'| == |agents|
    && 0 < tokens < INT_LIMIT
    && forall j :: 0 <= j < |agents| ==>
         && agents'[j].weight == agents[j].weight && agents'[j].id == agents[j].id
         && var after := if j == pick then ChargeTokens(agents[j], tokens) else agents[j];
            agents'[j].vruntime == after.vruntime && agents'[j].consumedTokens == after.consumedTokens
  }

  /** The scheduler's pick from an always-ready set. */
  ghost predicate Picked(policy: string, threshold: U64, last: Option<Avp>, pressure: Pressure,
                         agents: seq<Avp>, pick: nat) {
    && pick < |agents|
    && (forall a :: a in agents ==> a.state == Ready)
    && ReadyAgents(agents) != []
    && agents[pick] == Choose(policy, threshold, last, pressure, ReadyAgents(agents))
  }

  /** A run of turns: the agents before each turn, who was picked and how much was charged. */
  datatype Run = Run(agents: seq<seq<Avp>>, picks: seq<nat>, tokens: seq<int>, pressures: seq<Pressure>, first: Option<Avp>)

  ghost predicate ValidCharges(r: Run) {
    && |r.agents| == |r.picks| + 1 && |r.tokens| == |r.picks| == |r.pressures|
    && (forall k :: 0 <= k < |r.picks| ==> r.picks[k] < |r.agents[k]|)
    && forall k :: 0 <= k < |r.picks| ==> Charged(r.agents[k], r.picks[k], r.tokens[k], r.agents[k + 1])
  }

  /** What the scheduler remembers when turn `k` starts. */
  ghost function Last(r: Run, k: nat): Option<Avp>
    requires ValidCharges(r) && k <= |r.picks|
  {
    if k == 0 then r.first else Some(r.agents[k - 1][r.picks[k - 1]])
  }

  ghost predicate ValidRun(policy: string, threshold: U64, r: Run) {
    && ValidCharges(r)
    && forall k :: 0 <= k < |r.picks| ==>
         Picked(policy, threshold, Last(r, k), r.pressures[k], r.agents[k], r.picks[k])
  }

  /** Every vruntime stays where float64 is exact. */
  ghost predicate ExactRange(r: Run) {
    forall k, j :: 0 <= k < |r.agents| && 0 <= j < |r.agents[k]| ==> r.agents[k][j].vruntime <= EXACT
  }

  /** No charge of the run wraps the 64-bit counter. */
  ghost predicate NoWrap(r: Run)
    requires ValidCharges(r)
  {
    forall k :: 0 <= k < |r.picks| ==> r.agents[k][r.picks[k]].vruntime + r.tokens[k] < U64_MOD
  }

  /** What a policy needs to keep its window: prefix affinity exact floats, token-CFS nothing but no wrap-around. */
  ghost predicate InRange(policy: string, r: Run)
    requires ValidCharges(r)
  {
    if policy == TOKEN_CFS then NoWrap(r) else ExactRange(r)
  }

  lemma InRangeNoWrap(policy: string, r: Run)
    requires ValidCharges(r) && InRange(policy, r)
    ensures NoWrap(r)
  {
    forall k | 0 <= k < |r.picks|
      ensures r.agents[k][r.picks[k]].vruntime + r.tokens[k] < U64_MOD
    {
      assert Charged(r.agents[k], r.picks[k], r.tokens[k], r.agents[k + 1]);
    }
  }

  /** The pick lies within `window` of everyone's vruntime. */
  ghost predicate Within(agents: seq<Avp>, pick: nat, window: nat) {
    pick < |agents| && forall j :: 0 <= j < |agents| ==> agents[pick].vruntime <= agents[j].vruntime + window
  }

  ghost predicate Windowed(r: Run, window: nat)
    requires ValidCharges(r)
  {
    forall k :: 0 <= k < |r.picks| ==> Within(r.agents[k], r.picks[k], window)
  }

  /** Token-CFS runs have window zero, prefix-affinity runs the affinity threshold. */
  lemma PolicyRunsAreWindowed(policy: string, threshold: U64, r: Run)
    requires ValidRun(policy, threshold, r) && InRange(policy, r)
    requires policy == TOKEN_CFS || policy == PREFIX_AFFINITY
    ensures Windowed(r, Window(policy, threshold))
  {
    forall k | 0 <= k < |r.picks|
      ensures Within(r.agents[k], r.picks[k], Window(policy, threshold))
    {
      assert Picked(policy, threshold, Last(r, k), r.pressures[k], r.agents[k], r.picks[k]);
      PickWithin(policy, threshold, Last(r, k), r.pressures[k], r.agents[k], r.picks[k]);
    }
  }

  lemma PickWithin(policy: string, threshold: U64, last: Option<Avp>, pressure: Pressure, agents: seq<Avp>, pick: nat)
    requires Picked(policy, threshold, last, pressure, agents, pick)
    requires policy == TOKEN_CFS || policy == PREFIX_AFFINITY
    requires policy == PREFIX_AFFINITY ==> forall j :: 0 <= j < |agents| ==> agents[j].vruntime <= EXACT
    ensures Within(agents, pick, Window(policy, threshold))
  {
    AllReady(agents);
    ChooseWithinWindow(policy, threshold, last, pressure, agents);
    assert forall j :: 0 <= j < |agents| ==> agents[j] in agents;
  }

  function Gain(agent: Avp, tokens: int): int {
    ChargeTokens(agent, tokens).vruntime - agent.vruntime
  }

  /** Every charge of the run adds at most `d` to a vruntime. */
  ghost predicate GainsAtMost(r: Run, d: int)
    requires ValidCharges(r)
  {
    forall k :: 0 <= k < |r.picks| ==> Gain(r.agents[k][r.picks[k]], r.tokens[k]) <= d
  }

  ghost predicate SpreadAtMost(agents: seq<Avp>, m: int) {
    forall i, j :: 0 <= i < |agents| && 0 <= j < |agents| ==> agents[i].vruntime - agents[j].vruntime <= m
  }

  // ----- one charge -----

  lemma {:induction false} TimesAtLeast(q: nat, w: nat)
    requires w >= 1
    ensures q * w >= q
  {
    if w > 1 {
      TimesAtLeast(q, w - 1);
      assert q * w == q * (w - 1) + q;
    }
  }

  lemma DivAtMost(t: nat, w: int)
    requires w >= 1
    ensures 0 <= t / w <= t
  {
    assert t == (t / w) * w + t % w;
    TimesAtLeast(t / w, w);
  }

  /** A gain that tracks its tokens at weight `w`. */
  predicate Tracks(w: int, gain: int, tokens: int) {
    -(w - 1) <= w * gain - tokens <= w - 1
  }

  lemma TruncatedShare(t: int, w: int)
    requires t > 0 && w > 0
    ensures var units := t / w; var gain := if units == 0 then 1 else units;
      Tracks(w, gain, t) && 0 <= units <= t && 1 <= gain <= t
  {
    assert t == w * (t / w) + t % w;
    DivAtMost(t, w);
  }

  lemma GainIsShare(agent: Avp, tokens: int, units: nat)
    requires tokens > 0 && agent.vruntime + tokens < U64_MOD && units <= tokens
    requires units == GoDiv(tokens, EffectiveWeight(agent.weight))
    ensures Gain(agent, tokens) == if units == 0 then 1 else units
  {
  }

  /** One charge: the gain is positive and weight times it is within `w - 1` of the tokens. */
  lemma ChargeTracksTokens(agent: Avp, tokens: int)
    requires tokens > 0 && agent.vruntime + tokens < U64_MOD
    ensures Tracks(EffectiveWeight(agent.weight), Gain(agent, tokens), tokens)
    ensures 1 <= Gain(agent, tokens) <= tokens
  {
    var w := EffectiveWeight(agent.weight);
    TruncatedShare(tokens, w);
    GainIsShare(agent, tokens, tokens / w);
  }

  /** A charge of no or negative tokens lowers the vruntime by its truncated share, wrapping round exactly where that is more than there is. */
  lemma RefundWrapsIff(agent: Avp, tokens: int)
    requires tokens <= 0 && -tokens < INT_LIMIT
    ensures var w, after := if agent.weight > 0 then agent.weight else 100, ChargeTokens(agent, tokens);
      && after.vruntime == agent.vruntime - (-tokens) / w + (if (-tokens) / w > agent.vruntime then U64_MOD else 0)
      && after.consumedTokens == agent.consumedTokens + tokens
  {
    var w := EffectiveWeight(agent.weight);
    assert 0 <= (-tokens) / w <= -tokens by { if tokens < 0 { TruncatedShare(-tokens, w); } else { assert 0 / w == 0; } }
    assert GoDiv(tokens, w) == -((-tokens) / w);
  }

  lemma {:induction false} PopulationFixed(r: Run, k: nat)
    requires ValidCharges(r) && k < |r.agents|
    ensures |r.agents[k]| == |r.agents[0]|
    ensures forall j :: 0 <= j < |r.agents[0]| ==> r.agents[k][j].weight == r.agents[0][j].weight
    ensures forall j :: 0 <= j < |r.agents[0]| ==> r.agents[k][j].id == r.agents[0][j].id
  {
    if k > 0 {
      PopulationFixed(r, k - 1);
      assert Charged(r.agents[k - 1], r.picks[k - 1], r.tokens[k - 1], r.agents[k]);
    }
  }

  // ----- spread -----

  /** One bounded raise of an agent inside the window keeps a spread of at least window plus raise. */
  lemma RaiseKeepsSpread(before: seq<Avp>, after: seq<Avp>, p: nat, window: nat, d: int, m: int)
    requires |before| == |after| && p < |before| && m >= window + d
    requires forall j :: 0 <= j < |before| && j != p ==> after[j].vruntime == before[j].vruntime
    requires before[p].vruntime < after[p].vruntime <= before[p].vruntime + d
    requires forall j :: 0 <= j < |before| ==> before[p].vruntime <= before[j].vruntime + window
    requires SpreadAtMost(before, m)
    ensures SpreadAtMost(after, m)
  {
    forall i, j | 0 <= i < |after| && 0 <= j < |after|
      ensures after[i].vruntime - after[j].vruntime <= m
    {
      assert before[i].vruntime - before[j].vruntime <= m;
    }
  }

  function Larger(x: int, y: int): int {
    if x >= y then x else y
  }

  lemma {:induction false} WindowedSpread(r: Run, k: nat, window: nat, initial: int, d: int)
    requires ValidCharges(r) && Windowed(r, window) && NoWrap(r) && GainsAtMost(r, d)
    requires SpreadAtMost(r.agents[0], initial) && k < |r.agents|
    ensures SpreadAtMost(r.agents[k], Larger(initial, window + d))
  {
    if k > 0 {
      WindowedSpread(r, k - 1, window, initial, d);
      var before, p := r.agents[k - 1], r.picks[k - 1];
      assert Charged(before, p, r.tokens[k - 1], r.agents[k]);
      ChargeTracksTokens(before[p], r.tokens[k - 1]);
      assert Gain(before[p], r.tokens[k - 1]) <= d;
      assert Within(before, p, window);
      RaiseKeepsSpread(before, r.agents[k], p, window, d, Larger(initial, window + d));
    }
  }

  /** The spread never exceeds the larger of the initial spread and window plus largest charge. */
  lemma SpreadBounded(policy: string, threshold: U64, r: Run, k: nat, initial: int, d: int)
    requires ValidRun(policy, threshold, r) && InRange(policy, r) && GainsAtMost(r, d)
    requires policy == TOKEN_CFS || policy == PREFIX_AFFINITY
    requires SpreadAtMost(r.agents[0], initial) && k < |r.agents|
    ensures SpreadAtMost(r.agents[k], Larger(initial, Window(policy, threshold) + d))
  {
    PolicyRunsAreWindowed(policy, threshold, r);
    InRangeNoWrap(policy, r);
    WindowedSpread(r, k, Window(policy, threshold), initial, d);
  }

  // ----- waiting -----

  function PosPart(x: int): nat {
    if x > 0 then x else 0
  }

  /** How many turns the other agents may still take before `a` is due. */
  function Credit(agents: seq<Avp>, a: nat, window: nat, n: nat): nat
    requires a < |agents| && n <= |agents|
  {
    if n == 0 then 0
    else
      Credit(agents, a, window, n - 1)
      + if n - 1 == a then 0 else PosPart(agents[a].vruntime + window + 1 - agents[n - 1].vruntime)
  }

  /** A turn taken by someone else inside the window uses up credit. */
  lemma {:induction false} CreditShrinks(before: seq<Avp>, after: seq<Avp>, a: nat, p: nat, window: nat, n: nat)
    requires |before| == |after| && a < |before| && p < |before| && p != a && n <= |before|
    requires forall j :: 0 <= j < |before| && j != p ==> after[j].vruntime == before[j].vruntime
    requires after[p].vruntime > before[p].vruntime && before[p].vruntime <= before[a].vruntime + window
    ensures Credit(after, a, window, n) + (if p < n then 1 else 0) <= Credit(before, a, window, n)
  {
    if n > 0 {
      CreditShrinks(before, after, a, p, window, n - 1);
    }
  }

  /** Every turn `a` is passed over uses up one unit of its credit. */
  lemma {:induction false} WindowedWaiting(r: Run, a: nat, window: nat, k: nat)
    requires ValidCharges(r) && Windowed(r, window) && NoWrap(r)
    requires a < |r.agents[0]| && k < |r.agents|
    requires forall i :: 0 <= i < k ==> r.picks[i] != a
    ensures |r.agents[k]| == |r.agents[0]|
    ensures k + Credit(r.agents[k], a, window, |r.agents[0]|) <= Credit(r.agents[0], a, window, |r.agents[0]|)
  {
    PopulationFixed(r, k);
    if k > 0 {
      WindowedWaiting(r, a, window, k - 1);
      var before, p := r.agents[k - 1], r.picks[k - 1];
      assert Charged(before, p, r.tokens[k - 1], r.agents[k]);
      ChargeTracksTokens(before[p], r.tokens[k - 1]);
      assert Within(before, p, window);
      CreditShrinks(before, r.agents[k], a, p, window, |before|);
    }
  }

  /** No agent starves: a run longer than an agent's credit picks it within that many turns. */
  lemma NobodyStarves(policy: string, threshold: U64, r: Run, a: nat) returns (i: nat)
    requires ValidRun(policy, threshold, r) && InRange(policy, r)
    requires policy == TOKEN_CFS || policy == PREFIX_AFFINITY
    requires a < |r.agents[0]|
    requires |r.picks| > Credit(r.agents[0], a, Window(policy, threshold), |r.agents[0]|)
    ensures i <= Credit(r.agents[0], a, Window(policy, threshold), |r.agents[0]|) && r.picks[i] == a
  {
    PolicyRunsAreWindowed(policy, threshold, r);
    InRangeNoWrap(policy, r);
    var credit := Credit(r.agents[0], a, Window(policy, threshold), |r.agents[0]|);
    if forall j :: 0 <= j < credit + 1 ==> r.picks[j] != a {
      WindowedWaiting(r, a, Window(policy, threshold), credit + 1);
      assert false;
    }
    i :| 0 <= i < credit + 1 && r.picks[i] == a;
  }

  // ----- weight -----

  /** Tokens charged to agent `a`, and how often, in the first `k` turns. */
  ghost function TokensOf(r: Run, a: nat, k: nat): int
    requires ValidCharges(r) && k <= |r.picks|
  {
    if k == 0 then 0 else TokensOf(r, a, k - 1) + if r.picks[k - 1] == a then r.tokens[k - 1] else 0
  }

  ghost function TurnsOf(r: Run, a: nat, k: nat): nat
    requires ValidCharges(r) && k <= |r.picks|
  {
    if k == 0 then 0 else TurnsOf(r, a, k - 1) + if r.picks[k - 1] == a then 1 else 0
  }

  function Total(xs: seq<int>): int {
    if xs == [] then 0 else Total(xs[..|xs| - 1]) + xs[|xs| - 1]
  }

  lemma TotalAppend(xs: seq<int>, x: int)
    ensures Total(xs + [x]) == Total(xs) + x
  {
    assert (xs + [x])[..|xs|] == xs;
  }

  /** The gains and charges of agent `a` in the first `k` turns. */
  lemma {:induction false} ChargesOf(r: Run, a: nat, k: nat) returns (gains: seq<int>, charges: seq<int>)
    requires ValidCharges(r) && NoWrap(r) && a < |r.agents[0]| && k < |r.agents|
    ensures |r.agents[k]| == |r.agents[0]|
    ensures |gains| == |charges| == TurnsOf(r, a, k)
    ensures Total(gains) == r.agents[k][a].vruntime - r.agents[0][a].vruntime
    ensures Total(charges) == TokensOf(r, a, k) == r.agents[k][a].consumedTokens - r.agents[0][a].consumedTokens
    ensures forall i :: 0 <= i < |gains| ==> Tracks(EffectiveWeight(r.agents[0][a].weight), gains[i], charges[i])
  {
    gains, charges := [], [];
    PopulationFixed(r, k);
    if k > 0 {
      gains, charges := ChargesOf(r, a, k - 1);
      PopulationFixed(r, k - 1);
      var before, p, t := r.agents[k - 1], r.picks[k - 1], r.tokens[k - 1];
      assert Charged(before, p, t, r.agents[k]);
      if p == a {
        ChargeTracksTokens(before[a], t);
        TotalAppend(gains, Gain(before[a], t));
        TotalAppend(charges, t);
        gains, charges := gains + [Gain(before[a], t)], charges + [t];
      }
    }
  }

  /** Weight times the gain is within `n(w - 1)` of the tokens. */
  predicate TracksOver(w: int, gained: int, charged: int, n: nat) {
    -(n * (w - 1)) <= w * gained - charged <= n * (w - 1)
  }

  lemma {:induction false} DriftOfCharges(w: int, gains: seq<int>, charges: seq<int>)
    requires |gains| == |charges| && forall i :: 0 <= i < |gains| ==> Tracks(w, gains[i], charges[i])
    ensures TracksOver(w, Total(gains), Total(charges), |gains|)
  {
    var n := |gains|;
    if n > 0 {
      DriftOfCharges(w, gains[..n - 1], charges[..n - 1]);
      assert Tracks(w, gains[n - 1], charges[n - 1]);
      assert w * (Total(gains[..n - 1]) + gains[n - 1]) == w * Total(gains[..n - 1]) + w * gains[n - 1];
      assert n * (w - 1) == (n - 1) * (w - 1) + (w - 1);
    }
  }

  /** After its `n` charges, weight times an agent's gain is within `n(w - 1)` of the tokens charged. */
  lemma VRuntimeTracksTokens(r: Run, a: nat, k: nat) returns (w: int, gained: int, charged: int, n: nat)
    requires ValidCharges(r) && NoWrap(r) && a < |r.agents[0]| && k < |r.agents|
    ensures |r.agents[k]| == |r.agents[0]|
    ensures w == (if r.agents[0][a].weight > 0 then r.agents[0][a].weight else 100) && n == TurnsOf(r, a, k)
    ensures r.agents[k][a].vruntime == r.agents[0][a].vruntime + gained
    ensures r.agents[k][a].consumedTokens == r.agents[0][a].consumedTokens + charged && charged == TokensOf(r, a, k)
    ensures TracksOver(w, gained, charged, n)
  {
    var gains, charges := ChargesOf(r, a, k);
    w := EffectiveWeight(r.agents[0][a].weight);
    gained, charged, n := Total(gains), Total(charges), |gains|;
    DriftOfCharges(w, gains, charges);
  }
}
