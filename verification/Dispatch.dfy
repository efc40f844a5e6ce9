/** The server's dispatch loop: select among the pending specs, launch the pick, repeat. */
module Dispatch {
  import opened Prelude
  import opened Sorting
  import opened AvpModel
  import opened SchedulerModel
  import opened SchedulerChoice
  import opened Scheduler

  datatype Spec = Spec(agentId: string, role: string, taskId: string)

  datatype Outcome = Launched | NoReadyAgents | StartFailed

  /** What the control group of an agent reports. */
  datatype Usage = Usage(memoryCurrent: int, pidsCurrent: int, cpuStat: Option<CpuStat>, pressure: Pressure)

  /**
   * What the loop sees of its surroundings: usage is read for the candidates of a turn, where there is any to
   * read, and the pressure is sampled once more after the turn's decision.
   */
  datatype Env = Env(
    registry: map<string, Avp>,
    tables: map<string, seq<string>>,
    starts: Spec -> bool,
    usage: (nat, string) -> Option<Usage>,
    samples: nat -> Pressure)

  function Candidate(env: Env, id: string): Avp
    requires id in env.registry
  {
    env.registry[id].(state := Ready, pageTable := if id in env.tables then env.tables[id] else [])
  }

  /** The candidate with the usage read in that turn. */
  function Sampled(env: Env, turn: nat, id: string): Avp
    requires id in env.registry
  {
    match env.usage(turn, id)
    case None => Candidate(env, id)
    case Some(u) =>
      Candidate(env, id).(memoryCurrent := u.memoryCurrent, pidsCurrent := u.pidsCurrent, cpuStat := u.cpuStat)
  }

  /** The registered pending agents, ready, with their current page tables and usage. */
  function Candidates(env: Env, turn: nat, pending: seq<Spec>): seq<Avp> {
    if pending == [] then []
    else
      var id := pending[|pending| - 1].agentId;
      Candidates(env, turn, pending[..|pending| - 1]) + if id in env.registry then [Sampled(env, turn, id)] else []
  }

  function MaxPressure(p: Pressure, q: Pressure): Pressure {
    Pressure(MaxReal(p.memory, q.memory), MaxReal(p.pids, q.pids),
             MaxReal(p.cpuThrottle, q.cpuThrottle), MaxReal(p.psi, q.psi))
  }

  const NO_PRESSURE := Pressure(0.0, 0.0, 0.0, 0.0)

  /** The greatest pressures read in a turn, if any were. */
  function Combined(env: Env, turn: nat, pending: seq<Spec>): Option<Pressure> {
    if pending == [] then None
    else
      var id := pending[|pending| - 1].agentId;
      var front := Combined(env, turn, pending[..|pending| - 1]);
      if id in env.registry && env.usage(turn, id).Some? then
        Some(MaxPressure(front.GetOr(NO_PRESSURE), env.usage(turn, id).value.pressure))
      else front
  }

  /** The pressure a turn decides under. */
  function PressureAt(env: Env, turn: nat, pending: seq<Spec>, pressure: Pressure): Pressure {
    match Combined(env, turn, pending)
    case None => pressure
    case Some(p) => Normalize(p)
  }

  /** Takes the first spec of that agent out of the list, or the first spec if there is none. */
  function PopSpec(specs: seq<Spec>, id: string): (r: (Spec, seq<Spec>))
    requires specs != []
    ensures |r.1| == |specs| - 1
    ensures multiset(specs) == multiset{r.0} + multiset(r.1)
  {
    var i := FirstIndex(specs, id);
    var k := if i < |specs| then i else 0;
    assert specs == specs[..k] + [specs[k]] + specs[k + 1..];
    (specs[k], Removed(specs, k))
  }

  function Removed<T>(s: seq<T>, i: nat): seq<T>
    requires i < |s|
  {
    s[..i] + s[i + 1..]
  }

  function FirstIndex(specs: seq<Spec>, id: string): (i: nat)
    ensures i <= |specs|
    ensures i < |specs| ==> specs[i].agentId == id
    ensures forall j :: 0 <= j < i ==> specs[j].agentId != id
  {
    if specs == [] then 0 else if specs[0].agentId == id then 0 else 1 + FirstIndex(specs[1..], id)
  }

  /** The launches in order and how the loop ended. */
  function DispatchFrom(env: Env, policy: string, threshold: U64, last: Option<Avp>, pressure: Pressure,
                        pending: seq<Spec>, turn: nat): (seq<Spec>, Outcome)
    decreases |pending|
  {
    if pending == [] then ([], Launched)
    else
      var ready := ReadyAgents(Candidates(env, turn, pending));
      if ready == [] then ([], NoReadyAgents)
      else
        var selected := Choose(policy, threshold, last, PressureAt(env, turn, pending, pressure), ready);
        var (spec, rest) := PopSpec(pending, selected.id);
        if !env.starts(spec) then ([], StartFailed)
        else
          var (more, outcome) :=
            DispatchFrom(env, policy, threshold, Some(selected), Normalize(env.samples(turn)), rest, turn + 1);
          ([spec] + more, outcome)
  }

  /** Gathers the candidates, and the pressure of those whose usage could be read. */
  method SchedulerCandidates(env: Env, scheduler: Scheduler, turn: nat, pending: seq<Spec>) returns (candidates: seq<Avp>)
    modifies scheduler`resourcePressure
    ensures candidates == Candidates(env, turn, pending)
    ensures scheduler.resourcePressure == PressureAt(env, turn, pending, old(scheduler.resourcePressure))
  {
    candidates := [];
    var combined: Option<Pressure> := None;
    for i := 0 to |pending|
      invariant candidates == Candidates(env, turn, pending[..i]) && combined == Combined(env, turn, pending[..i])
      invariant scheduler.resourcePressure == old(scheduler.resourcePressure)
    {
      assert pending[..i + 1][..i] == pending[..i];
      var id := pending[i].agentId;
      if id !in env.registry {
        continue;
      }
      var agent := env.registry[id];
      agent := agent.(state := Ready);
      agent := agent.(pageTable := if id in env.tables then env.tables[id] else []);
      var usage := env.usage(turn, id);
      if usage.Some? {
        agent := agent.(memoryCurrent := usage.value.memoryCurrent, pidsCurrent := usage.value.pidsCurrent,
                        cpuStat := usage.value.cpuStat);
        combined := Some(MaxPressure(combined.GetOr(NO_PRESSURE), usage.value.pressure));
      }
      candidates := candidates + [agent];
    }
    assert pending[..|pending|] == pending;
    if combined.Some? {
      scheduler.SetResourcePressure(combined.value);
    }
  }

  /** Launches put behind those already made. */
  function Behind(launched: seq<Spec>, r: (seq<Spec>, Outcome)): (seq<Spec>, Outcome) {
    (launched + r.0, r.1)
  }

  lemma BehindCons(launched: seq<Spec>, spec: Spec, r: (seq<Spec>, Outcome))
    ensures Behind(launched, ([spec] + r.0, r.1)) == Behind(launched + [spec], r)
    ensures Behind([], r) == r
    ensures Behind(launched, ([], r.1)) == (launched, r.1)
  {
    assert launched + ([spec] + r.0) == launched + [spec] + r.0;
    assert [] + r.0 == r.0;
    assert launched + [] == launched;
  }

  lemma DispatchUnfold(env: Env, policy: string, threshold: U64, last: Option<Avp>, pressure: Pressure,
                       pending: seq<Spec>, turn: nat)
    requires pending != []
    ensures var ready := ReadyAgents(Candidates(env, turn, pending));
      var whole := DispatchFrom(env, policy, threshold, last, pressure, pending, turn);
      if ready == [] then whole == ([], NoReadyAgents)
      else
        var selected := Choose(policy, threshold, last, PressureAt(env, turn, pending, pressure), ready);
        var (spec, rest) := PopSpec(pending, selected.id);
        if !env.starts(spec) then whole == ([], StartFailed)
        else
          var r := DispatchFrom(env, policy, threshold, Some(selected), Normalize(env.samples(turn)), rest, turn + 1);
          whole == ([spec] + r.0, r.1)
  {
  }

  /** Runs the loop with a scheduler. */
  method RunDispatch(env: Env, scheduler: Scheduler, specs: seq<Spec>) returns (launched: seq<Spec>, outcome: Outcome)
    modifies scheduler
    ensures (launched, outcome)
         == DispatchFrom(env, old(scheduler.policy), old(scheduler.affinityThreshold), old(scheduler.last),
                         old(scheduler.resourcePressure), specs, 0)
    ensures scheduler.policy == old(scheduler.policy) && scheduler.affinityThreshold == old(scheduler.affinityThreshold)
  {
    launched := [];
    var pending, turn := specs, 0;
    ghost var policy, threshold := scheduler.policy, scheduler.affinityThreshold;
    ghost var whole := DispatchFrom(env, policy, threshold, scheduler.last, scheduler.resourcePressure, specs, 0);
    ghost var rest := whole;
    BehindCons([], Spec("", "", ""), whole);
    while |pending| > 0
      invariant scheduler.policy == policy && scheduler.affinityThreshold == threshold
      invariant rest == DispatchFrom(env, policy, threshold, scheduler.last, scheduler.resourcePressure, pending, turn)
      invariant whole == Behind(launched, rest)
      decreases |pending|
    {
      DispatchUnfold(env, policy, threshold, scheduler.last, scheduler.resourcePressure, pending, turn);
      BehindCons(launched, pending[0], rest);
      var candidates := SchedulerCandidates(env, scheduler, turn, pending);
      var selected := scheduler.Select(pending[0].taskId, candidates);
      if selected.None? {
        return launched, NoReadyAgents;
      }
      scheduler.SetResourcePressure(env.samples(turn));
      var (spec, next) := PopSpec(pending, selected.value.id);
      pending, turn := next, turn + 1;
      if !env.starts(spec) {
        return launched, StartFailed;
      }
      rest := DispatchFrom(env, policy, threshold, scheduler.last, scheduler.resourcePressure, pending, turn);
      BehindCons(launched, spec, rest);
      launched := launched + [spec];
    }
    BehindCons(launched, Spec("", "", ""), rest);
    outcome := Launched;
  }

  // ----- what the loop launches -----

  ghost predicate UniqueSpecs(specs: seq<Spec>) {
    forall i, j :: 0 <= i < j < |specs| ==> specs[i].agentId != specs[j].agentId
  }

  ghost predicate Registered(env: Env, specs: seq<Spec>) {
    forall s :: s in specs ==> s.agentId in env.registry && env.registry[s.agentId].id == s.agentId
  }

  /** Registered specs and candidates correspond one to one. */
  lemma {:induction false} CandidatesMatch(env: Env, turn: nat, pending: seq<Spec>)
    requires Registered(env, pending)
    ensures |Candidates(env, turn, pending)| == |pending|
    ensures forall i :: 0 <= i < |pending| ==> Candidates(env, turn, pending)[i] == Sampled(env, turn, pending[i].agentId)
    ensures forall c :: c in Candidates(env, turn, pending) ==> c.state == Ready
  {
    if pending != [] {
      var front := pending[..|pending| - 1];
      assert pending == front + [pending[|pending| - 1]];
      assert pending[|pending| - 1] in pending;
      CandidatesMatch(env, turn, front);
      forall c | c in Candidates(env, turn, pending)
        ensures c.state == Ready
      {
        if c !in Candidates(env, turn, front) { assert c == Sampled(env, turn, pending[|pending| - 1].agentId); }
      }
    }
  }

  /** The candidates without the usage, which differs from turn to turn. */
  function Plain(env: Env, pending: seq<Spec>): seq<Avp>
    requires Registered(env, pending)
  {
    seq(|pending|, i requires 0 <= i < |pending| => assert pending[i] in pending; Candidate(env, pending[i].agentId))
  }

  lemma PopsTheSpec(pending: seq<Spec>, i: nat)
    requires UniqueSpecs(pending) && i < |pending|
    ensures PopSpec(pending, pending[i].agentId) == (pending[i], Removed(pending, i))
  {
    var j := FirstIndex(pending, pending[i].agentId);
    assert j <= i && pending[j].agentId == pending[i].agentId;
  }

  lemma RemovedIndex<T>(s: seq<T>, i: nat, j: nat)
    requires i < |s| && j < |s| - 1
    ensures |Removed(s, i)| == |s| - 1 && Removed(s, i)[j] == s[if j < i then j else j + 1]
  {
  }

  lemma RemovedKeeps(env: Env, pending: seq<Spec>, i: nat)
    requires Registered(env, pending) && UniqueSpecs(pending) && i < |pending|
    ensures Registered(env, Removed(pending, i)) && UniqueSpecs(Removed(pending, i))
    ensures forall s :: s in Removed(pending, i) ==> s in pending
  {
    var rest := Removed(pending, i);
    forall s | s in rest
      ensures s in pending
    {
      var j :| 0 <= j < |rest| && rest[j] == s;
      RemovedIndex(pending, i, j);
    }
    forall j, k | 0 <= j < k < |rest|
      ensures rest[j].agentId != rest[k].agentId
    {
      RemovedIndex(pending, i, j);
      RemovedIndex(pending, i, k);
    }
  }

  /** Popping the pick removes its candidate and nothing else. */
  lemma RemovedCandidates(env: Env, pending: seq<Spec>, i: nat)
    requires Registered(env, pending) && UniqueSpecs(pending) && i < |pending|
    ensures Registered(env, Removed(pending, i)) && Plain(env, Removed(pending, i)) == Removed(Plain(env, pending), i)
  {
    var rest := Removed(pending, i);
    RemovedKeeps(env, pending, i);
    forall j | 0 <= j < |rest|
      ensures Plain(env, rest)[j] == Removed(Plain(env, pending), i)[j]
    {
      RemovedIndex(pending, i, j);
      RemovedIndex(Plain(env, pending), i, j);
    }
  }

  /** The next pick as an index into the pending specs. */
  lemma NextPick(env: Env, policy: string, threshold: U64, last: Option<Avp>, pressure: Pressure, pending: seq<Spec>,
                 turn: nat) returns (i: nat)
    requires Registered(env, pending) && UniqueSpecs(pending) && pending != []
    ensures var cands := Candidates(env, turn, pending);
      && |cands| == |pending| && i < |pending| && ReadyAgents(cands) == cands
      && Choose(policy, threshold, last, PressureAt(env, turn, pending, pressure), cands) == cands[i] && cands[i].id == pending[i].agentId
      && cands[i].vruntime == env.registry[pending[i].agentId].vruntime
  {
    CandidatesMatch(env, turn, pending);
    CandidateVRuntimes(env, turn, pending);
    AllReady(Candidates(env, turn, pending));
    i := ChosenIndex(policy, threshold, last, PressureAt(env, turn, pending, pressure), Candidates(env, turn, pending));
    assert pending[i] in pending;
  }

  lemma ChosenIndex(policy: string, threshold: U64, last: Option<Avp>, pressure: Pressure, cands: seq<Avp>)
    returns (i: nat)
    requires cands != []
    ensures i < |cands| && cands[i] == Choose(policy, threshold, last, pressure, cands)
  {
    ChooseIsCandidate(policy, threshold, last, pressure, cands);
    i :| 0 <= i < |cands| && cands[i] == Choose(policy, threshold, last, pressure, cands);
  }

  /** One turn of the loop on registered unique specs. */
  lemma DispatchStep(env: Env, policy: string, threshold: U64, last: Option<Avp>, pressure: Pressure,
                     pending: seq<Spec>, turn: nat, i: nat)
    requires Registered(env, pending) && UniqueSpecs(pending) && i < |pending| && env.starts(pending[i])
    requires var cands := Candidates(env, turn, pending);
      && |cands| == |pending| && ReadyAgents(cands) == cands
      && Choose(policy, threshold, last, PressureAt(env, turn, pending, pressure), cands) == cands[i]
      && cands[i].id == pending[i].agentId
    ensures var rest := DispatchFrom(env, policy, threshold, Some(Candidates(env, turn, pending)[i]),
                                     Normalize(env.samples(turn)), Removed(pending, i), turn + 1);
      DispatchFrom(env, policy, threshold, last, pressure, pending, turn) == ([pending[i]] + rest.0, rest.1)
  {
    PopsTheSpec(pending, i);
  }

  lemma MultisetRemoved<T>(s: seq<T>, i: nat)
    requires i < |s|
    ensures multiset(s) == multiset{s[i]} + multiset(Removed(s, i))
  {
    assert s == s[..i] + [s[i]] + s[i + 1..];
  }

  /** With unique registered specs and successful starts, each spec is launched exactly once. */
  lemma {:induction false} EachLaunchedOnce(env: Env, policy: string, threshold: U64, last: Option<Avp>,
                                            pressure: Pressure, pending: seq<Spec>, turn: nat)
    requires Registered(env, pending) && UniqueSpecs(pending)
    requires forall s :: s in pending ==> env.starts(s)
    ensures var (launched, outcome) := DispatchFrom(env, policy, threshold, last, pressure, pending, turn);
      outcome == Launched && multiset(launched) == multiset(pending)
    decreases |pending|
  {
    if pending != [] {
      var i := NextPick(env, policy, threshold, last, pressure, pending, turn);
      assert pending[i] in pending;
      DispatchStep(env, policy, threshold, last, pressure, pending, turn, i);
      RemovedKeeps(env, pending, i);
      EachLaunchedOnce(env, policy, threshold, Some(Candidates(env, turn, pending)[i]), Normalize(env.samples(turn)),
                       Removed(pending, i), turn + 1);
      MultisetRemoved(pending, i);
    }
  }

  function LaunchedIds(launched: seq<Spec>): seq<string> {
    seq(|launched|, i requires 0 <= i < |launched| => launched[i].agentId)
  }

  lemma LaunchedIdsCons(spec: Spec, more: seq<Spec>)
    ensures LaunchedIds([spec] + more) == [spec.agentId] + LaunchedIds(more)
  {
  }

  lemma IdsCons(a: Avp, more: seq<Avp>)
    ensures Ids([a] + more) == [a.id] + Ids(more)
  {
  }

  /** Two lists that compare alike position by position have their first minimum at the same place. */
  lemma SameFirstMinimum(cands: seq<Avp>, plain: seq<Avp>, i: nat)
    requires |plain| == |cands| && FirstMinimum(VRuntimeLess, cands, i)
    requires forall j :: 0 <= j < |cands| ==>
      plain[j].vruntime == cands[j].vruntime && plain[j].createdAt == cands[j].createdAt
    ensures FirstMinimum(VRuntimeLess, plain, i)
  {
  }

  /** The token-CFS pick heads the sorted candidates, and the rest of the sort is the rest of the candidates. */
  lemma SortedHeadAndTail(env: Env, turn: nat, pending: seq<Spec>) returns (i: nat)
    requires Registered(env, pending) && pending != []
    ensures |Candidates(env, turn, pending)| == |pending| && i < |pending|
    ensures MinVRuntime(Candidates(env, turn, pending)) == Candidates(env, turn, pending)[i]
    ensures StableSort(VRuntimeLess, Plain(env, pending))
         == [Plain(env, pending)[i]] + StableSort(VRuntimeLess, Removed(Plain(env, pending), i))
  {
    var cands, plain := Candidates(env, turn, pending), Plain(env, pending);
    CandidatesMatch(env, turn, pending);
    i := TokenCfsIsLowest(cands);
    forall j | 0 <= j < |pending|
      ensures plain[j].vruntime == cands[j].vruntime && plain[j].createdAt == cands[j].createdAt
    {
      assert pending[j] in pending;
    }
    SameFirstMinimum(cands, plain, i);
    OrdersAreWeak();
    StableSortTail(VRuntimeLess, plain, i);
  }

  lemma {:induction false} LaunchesSorted(env: Env, threshold: U64, last: Option<Avp>, pressure: Pressure,
                                          pending: seq<Spec>, turn: nat)
    requires Registered(env, pending) && UniqueSpecs(pending)
    requires forall s :: s in pending ==> env.starts(s)
    ensures LaunchedIds(DispatchFrom(env, TOKEN_CFS, threshold, last, pressure, pending, turn).0)
         == Ids(StableSort(VRuntimeLess, Plain(env, pending)))
    decreases |pending|
  {
    if pending != [] {
      var cands := Candidates(env, turn, pending);
      var n := NextPick(env, TOKEN_CFS, threshold, last, pressure, pending, turn);
      var i := SortedHeadAndTail(env, turn, pending);
      CandidatesMatch(env, turn, pending);
      assert pending[i] in pending && pending[n] in pending;
      DispatchStep(env, TOKEN_CFS, threshold, last, pressure, pending, turn, i);
      RemovedKeeps(env, pending, i);
      RemovedCandidates(env, pending, i);
      var rest := Removed(pending, i);
      LaunchesSorted(env, threshold, Some(cands[i]), Normalize(env.samples(turn)), rest, turn + 1);
      LaunchedIdsCons(pending[i],
        DispatchFrom(env, TOKEN_CFS, threshold, Some(cands[i]), Normalize(env.samples(turn)), rest, turn + 1).0);
      IdsCons(Plain(env, pending)[i], StableSort(VRuntimeLess, Plain(env, rest)));
    }
  }

  /**
   * Under token-CFS the launch order holds every candidate once, by vruntime and then creation time, and keeps
   * the order of candidates that agree on both.
   */
  lemma TokenCfsLaunchesInOrder(env: Env, threshold: U64, last: Option<Avp>, pressure: Pressure,
                                pending: seq<Spec>, turn: nat)
    requires Registered(env, pending) && UniqueSpecs(pending)
    requires forall s :: s in pending ==> env.starts(s)
    ensures var cands := Plain(env, pending); var order := StableSort(VRuntimeLess, cands);
      && LaunchedIds(DispatchFrom(env, TOKEN_CFS, threshold, last, pressure, pending, turn).0) == Ids(order)
      && Sorted(VRuntimeLess, order) && multiset(order) == multiset(cands)
      && forall x :: Equivalents(VRuntimeLess, x, order) == Equivalents(VRuntimeLess, x, cands)
  {
    LaunchesSorted(env, threshold, last, pressure, pending, turn);
    OrdersAreWeak();
    StableSortSorts(VRuntimeLess, Plain(env, pending));
    forall x
      ensures Equivalents(VRuntimeLess, x, StableSort(VRuntimeLess, Plain(env, pending)))
           == Equivalents(VRuntimeLess, x, Plain(env, pending))
    {
      StableSortStable(VRuntimeLess, x, Plain(env, pending));
    }
  }

  /** Usage leaves vruntimes alone. */
  lemma CandidateVRuntimes(env: Env, turn: nat, pending: seq<Spec>)
    requires Registered(env, pending)
    ensures |Candidates(env, turn, pending)| == |pending|
    ensures forall j :: 0 <= j < |pending| ==> pending[j] in pending
    ensures forall j :: 0 <= j < |pending| ==>
      Candidates(env, turn, pending)[j].vruntime == env.registry[pending[j].agentId].vruntime
  {
    CandidatesMatch(env, turn, pending);
    forall j | 0 <= j < |pending|
      ensures pending[j] in pending
      ensures Candidates(env, turn, pending)[j].vruntime == env.registry[pending[j].agentId].vruntime
    {
      assert pending[j] in pending;
    }
  }

  lemma AffinityPickNear(env: Env, threshold: U64, last: Option<Avp>, pressure: Pressure, pending: seq<Spec>,
                         turn: nat, i: nat)
    requires Registered(env, pending) && i < |pending|
    requires forall s :: s in pending ==> env.registry[s.agentId].vruntime <= EXACT
    requires var cands := Candidates(env, turn, pending);
      |cands| == |pending| && Choose(PREFIX_AFFINITY, threshold, last, pressure, cands) == cands[i]
    ensures pending[i] in pending
    ensures forall s :: s in pending ==>
      env.registry[pending[i].agentId].vruntime <= env.registry[s.agentId].vruntime + threshold
  {
    var cands := Candidates(env, turn, pending);
    CandidateVRuntimes(env, turn, pending);
    ChooseWithinWindow(PREFIX_AFFINITY, threshold, last, pressure, cands);
    forall s | s in pending
      ensures env.registry[pending[i].agentId].vruntime <= env.registry[s.agentId].vruntime + threshold
    {
      var j :| 0 <= j < |pending| && pending[j] == s;
      assert cands[j] in cands;
    }
  }

  /** Under prefix affinity the next launch is within the threshold of every pending vruntime. */
  lemma AffinityLaunchesNearMinimum(env: Env, threshold: U64, last: Option<Avp>, pressure: Pressure,
                                    pending: seq<Spec>, turn: nat)
    requires Registered(env, pending) && UniqueSpecs(pending) && pending != []
    requires forall s :: s in pending ==> env.starts(s) && env.registry[s.agentId].vruntime <= EXACT
    ensures var launched := DispatchFrom(env, PREFIX_AFFINITY, threshold, last, pressure, pending, turn).0;
      launched != [] && launched[0] in pending
      && forall s :: s in pending ==>
           env.registry[launched[0].agentId].vruntime <= env.registry[s.agentId].vruntime + threshold
  {
    var i := NextPick(env, PREFIX_AFFINITY, threshold, last, pressure, pending, turn);
    AffinityPickNear(env, threshold, last, PressureAt(env, turn, pending, pressure), pending, turn, i);
    DispatchStep(env, PREFIX_AFFINITY, threshold, last, pressure, pending, turn, i);
  }

  /** No launch is more than `threshold` ahead of any that comes after it. */
  ghost predicate LaunchedNear(env: Env, launched: seq<Spec>, threshold: U64) {
    && (forall s :: s in launched ==> s.agentId in env.registry)
    && forall k, j :: 0 <= k < j < |launched| ==>
         env.registry[launched[k].agentId].vruntime <= env.registry[launched[j].agentId].vruntime + threshold
  }

  /** Under prefix affinity every launch was, in its turn, within the threshold of all still pending. */
  lemma {:induction false} AffinityLaunchesInWindow(env: Env, threshold: U64, last: Option<Avp>, pressure: Pressure,
                                                    pending: seq<Spec>, turn: nat)
    requires Registered(env, pending) && UniqueSpecs(pending)
    requires forall s :: s in pending ==> env.starts(s) && env.registry[s.agentId].vruntime <= EXACT
    ensures LaunchedNear(env, DispatchFrom(env, PREFIX_AFFINITY, threshold, last, pressure, pending, turn).0, threshold)
    decreases |pending|
  {
    if pending != [] {
      var launched := DispatchFrom(env, PREFIX_AFFINITY, threshold, last, pressure, pending, turn).0;
      AffinityLaunchesNearMinimum(env, threshold, last, pressure, pending, turn);
      EachLaunchedOnce(env, PREFIX_AFFINITY, threshold, last, pressure, pending, turn);
      InMultiset(launched, pending);
      var i := NextPick(env, PREFIX_AFFINITY, threshold, last, pressure, pending, turn);
      assert pending[i] in pending;
      DispatchStep(env, PREFIX_AFFINITY, threshold, last, pressure, pending, turn, i);
      RemovedKeeps(env, pending, i);
      var last', pressure', rest := Some(Candidates(env, turn, pending)[i]), Normalize(env.samples(turn)), Removed(pending, i);
      AffinityLaunchesInWindow(env, threshold, last', pressure', rest, turn + 1);
      NearCons(env, launched, DispatchFrom(env, PREFIX_AFFINITY, threshold, last', pressure', rest, turn + 1).0,
               pending, threshold);
    }
  }

  lemma NearCons(env: Env, launched: seq<Spec>, more: seq<Spec>, pending: seq<Spec>, threshold: U64)
    requires launched != [] && launched == [launched[0]] + more && LaunchedNear(env, more, threshold)
    requires forall s :: s in launched ==> s in pending
    requires forall s :: s in pending ==> s.agentId in env.registry
    requires forall s :: s in pending ==>
      env.registry[launched[0].agentId].vruntime <= env.registry[s.agentId].vruntime + threshold
    ensures LaunchedNear(env, launched, threshold)
  {
    forall k, j | 0 <= k < j < |launched|
      ensures env.registry[launched[k].agentId].vruntime <= env.registry[launched[j].agentId].vruntime + threshold
    {
      assert launched[j] == more[j - 1] && launched[j] in launched;
      if k > 0 { assert launched[k] == more[k - 1]; }
    }
  }
}
