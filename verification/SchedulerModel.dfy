/** Scheduling decisions as functions of the candidates, the last pick and the pressure. */
module SchedulerModel {
  import opened Prelude
  import opened Sorting
  import opened AvpModel

  const FIFO := "fifo"
  const TOKEN_CFS := "token-cfs"
  const PREFIX_AFFINITY := "token-cfs-prefix-affinity"
  const RESOURCE_AWARE := "token-cfs-prefix-affinity-resource-aware"

  datatype Pressure = Pressure(memory: real, pids: real, cpuThrottle: real, psi: real)

  // ----- charging -----

  /** Integer division that truncates toward zero. */
  function GoDiv(a: int, b: int): int
    requires b > 0
  {
    if a >= 0 then a / b else -((-a) / b)
  }

  const U64_MOD := 0x1_0000_0000_0000_0000

  function AddU64(v: U64, x: int): U64 {
    (v + x) % U64_MOD
  }

  function EffectiveWeight(weight: int): int {
    if weight <= 0 then 100 else weight
  }

  /** Charges tokens to an agent; a positive charge too small for one unit still counts as one. */
  function ChargeTokens(agent: Avp, tokens: int): Avp {
    var units := GoDiv(tokens, EffectiveWeight(agent.weight));
    var v := AddU64(agent.vruntime, units);
    agent.(consumedTokens := agent.consumedTokens + tokens,
           vruntime := if tokens > 0 && units == 0 then AddU64(v, 1) else v)
  }

  // ----- orders -----

  predicate CreatedLess(a: Avp, b: Avp) {
    a.createdAt < b.createdAt
  }

  predicate VRuntimeLess(a: Avp, b: Avp) {
    if a.vruntime == b.vruntime then a.createdAt < b.createdAt else a.vruntime < b.vruntime
  }

  lemma OrdersAreWeak()
    ensures StrictWeakOrder(CreatedLess) && StrictWeakOrder(VRuntimeLess)
  {
  }

  function Fifo(candidates: seq<Avp>): Avp
    requires candidates != []
  {
    OrdersAreWeak();
    StableSortSorts(CreatedLess, candidates);
    StableSort(CreatedLess, candidates)[0]
  }

  function MinVRuntime(candidates: seq<Avp>): Avp
    requires candidates != []
  {
    OrdersAreWeak();
    StableSortSorts(VRuntimeLess, candidates);
    StableSort(VRuntimeLess, candidates)[0]
  }

  // ----- shared pages -----

  function CountIn(pages: seq<string>, last: set<string>): nat {
    if pages == [] then 0
    else (if pages[|pages| - 1] in last then 1 else 0) + CountIn(pages[..|pages| - 1], last)
  }

  /** Nothing is shared with nobody. */
  lemma {:induction false} CountInNothing(pages: seq<string>)
    ensures CountIn(pages, {}) == 0
  {
    if pages != [] { CountInNothing(pages[..|pages| - 1]); }
  }

  function AllPages(a: Avp): seq<string> {
    a.pageTable + a.contextPages
  }

  function LastPages(last: Option<Avp>): set<string> {
    if last.None? then {} else set p | p in AllPages(last.value)
  }

  /** Pages each candidate shares with the last pick; absent means none. */
  function SharedPages(last: Option<Avp>, candidates: seq<Avp>): map<string, nat> {
    if candidates == [] then map[]
    else
      var front, c := SharedPages(last, candidates[..|candidates| - 1]), candidates[|candidates| - 1];
      var n := CountIn(AllPages(c), LastPages(last));
      if n == 0 then front else front[c.id := Lookup(front, c.id) + n]
  }

  function Lookup(m: map<string, nat>, id: string): nat {
    if id in m then m[id] else 0
  }

  // ----- float64 distance -----

  const EXACT := 0x20_0000_0000_0000 // 2^53

  /** Spacing of the floats around `n`. */
  function Ulp(n: nat): (u: nat)
    ensures u >= 1
  {
    if n < EXACT then 1 else 2 * Ulp(n / 2)
  }

  /** `n` rounded to a float64, ties to even. */
  function Float(n: nat): nat {
    var u := Ulp(n);
    var q, r := n / u, n % u;
    if 2 * r > u || (2 * r == u && q % 2 == 1) then (q + 1) * u else q * u
  }

  /** |left - right| as float64 arithmetic computes it, brought back to an unsigned integer. */
  function VRuntimeDistance(left: U64, right: U64): U64 {
    var l, r := Float(left), Float(right);
    var d := Float(if l >= r then l - r else r - l);
    if d < U64_MOD then d else U64_MOD - 1
  }

  // ----- prefix affinity -----

  function AffinityScan(candidates: seq<Avp>, shared: map<string, nat>, base: Avp, threshold: U64): Avp {
    if candidates == [] then base
    else
      var best, c := AffinityScan(candidates[..|candidates| - 1], shared, base, threshold), candidates[|candidates| - 1];
      if Lookup(shared, c.id) > Lookup(shared, best.id) && VRuntimeDistance(c.vruntime, base.vruntime) <= threshold
      then c else best
  }

  function PrefixAffinity(last: Option<Avp>, threshold: U64, candidates: seq<Avp>): Avp
    requires candidates != []
  {
    var base := MinVRuntime(candidates);
    if last.None? then base
    else AffinityScan(candidates, SharedPages(last, candidates), base, threshold)
  }

  // ----- resource awareness -----

  function Clamp(x: real, lo: real, hi: real): real {
    if x < lo then lo else if x > hi then hi else x
  }

  function MaxReal(x: real, y: real): real {
    if x > y then x else y
  }

  /** Rounds to thousandths, halves away from zero. */
  function Round3(x: real): real {
    if x >= 0.0 then (x * 1000.0 + 0.5).Floor as real / 1000.0
    else -((-x * 1000.0 + 0.5).Floor as real / 1000.0)
  }

  function Normalize(p: Pressure): Pressure {
    Pressure(Round3(Clamp(p.memory, 0.0, 1.0)), Round3(Clamp(p.pids, 0.0, 1.0)),
             Round3(Clamp(p.cpuThrottle, 0.0, 1.0)), Round3(Clamp(p.psi, 0.0, 1.0)))
  }

  function CpuPressure(global: real, stat: Option<CpuStat>): real {
    if stat.None? then global
    else
      MaxReal(MaxReal(global, Clamp(stat.value.nrThrottled as real / 100.0, 0.0, 1.0)),
              Clamp(stat.value.throttledUsec as real / 10000000.0, 0.0, 1.0))
  }

  function VRuntimeScore(v: U64): real {
    1000.0 / (1.0 + v as real)
  }

  function Score(pressure: Pressure, c: Avp, shared: nat): real {
    var global := Normalize(pressure);
    var memory := MaxReal(global.memory, Clamp(c.memoryCurrent as real / 1073741824.0, 0.0, 1.0));
    var pids := MaxReal(global.pids, Clamp(c.pidsCurrent as real / 64.0, 0.0, 1.0));
    Round3(VRuntimeScore(c.vruntime) + shared as real * 30.0 + c.priority as real * 5.0
           - memory * 180.0 - pids * 160.0 - CpuPressure(global.cpuThrottle, c.cpuStat) * 120.0 - global.psi * 90.0)
  }

  function ScoreOf(pressure: Pressure, shared: map<string, nat>, c: Avp): real {
    Score(pressure, c, Lookup(shared, c.id))
  }

  predicate Beats(pressure: Pressure, shared: map<string, nat>, c: Avp, best: Avp) {
    var x, y := ScoreOf(pressure, shared, c), ScoreOf(pressure, shared, best);
    x > y || (x == y && c.createdAt < best.createdAt)
  }

  function BestScore(pressure: Pressure, shared: map<string, nat>, candidates: seq<Avp>): Avp
    requires candidates != []
  {
    var c := candidates[|candidates| - 1];
    if |candidates| == 1 then c
    else
      var best := BestScore(pressure, shared, candidates[..|candidates| - 1]);
      if Beats(pressure, shared, c, best) then c else best
  }

  // ----- the decision -----

  /** The candidate the scheduler picks; unknown policies fall back to first come, first served. */
  function Choose(policy: string, threshold: U64, last: Option<Avp>, pressure: Pressure, candidates: seq<Avp>): Avp
    requires candidates != []
  {
    if policy == TOKEN_CFS then MinVRuntime(candidates)
    else if policy == PREFIX_AFFINITY then PrefixAffinity(last, threshold, candidates)
    else if policy == RESOURCE_AWARE then BestScore(pressure, SharedPages(last, candidates), candidates)
    else Fifo(candidates)
  }

  function ReadyAgents(candidates: seq<Avp>): seq<Avp> {
    if candidates == [] then []
    else
      ReadyAgents(candidates[..|candidates| - 1])
      + if candidates[|candidates| - 1].state == Ready then [candidates[|candidates| - 1]] else []
  }

  /** When everyone is ready nobody is filtered out. */
  lemma {:induction false} AllReady(candidates: seq<Avp>)
    requires forall c :: c in candidates ==> c.state == Ready
    ensures ReadyAgents(candidates) == candidates
  {
    if candidates != [] {
      AllReady(candidates[..|candidates| - 1]);
      assert candidates == candidates[..|candidates| - 1] + [candidates[|candidates| - 1]];
    }
  }
}
