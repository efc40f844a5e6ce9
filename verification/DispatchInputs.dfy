/** What a turn of the dispatch loop decides on: which candidates, with what in them, under which pressure. */
module DispatchInputs {
  import opened Prelude
  import opened AvpModel
  import opened SchedulerModel
  import opened SchedulerPolicies
  import opened Dispatch

  /** The agent's registry entry, ready, with its current page table and with its usage where that could be read. */
  ghost predicate Sees(env: Env, turn: nat, id: string, c: Avp) {
    && id in env.registry && StateName(c.state) == "READY"
    && c.pageTable == (if id in env.tables then env.tables[id] else [])
    && match env.usage(turn, id)
       case None => c == env.registry[id].(state := c.state, pageTable := c.pageTable)
       case Some(u) =>
         && c.memoryCurrent == u.memoryCurrent && c.pidsCurrent == u.pidsCurrent && c.cpuStat == u.cpuStat
         && c == env.registry[id].(state := c.state, pageTable := c.pageTable, memoryCurrent := c.memoryCurrent,
                                   pidsCurrent := c.pidsCurrent, cpuStat := c.cpuStat)
  }

  /** The candidates are, in order, those of the specs at `at`, which are the positions of the registered ones. */
  ghost predicate SeenAt(env: Env, turn: nat, pending: seq<Spec>, candidates: seq<Avp>, at: seq<int>) {
    && |at| == |candidates|
    && (forall k, l :: 0 <= k < l < |at| ==> at[k] < at[l])
    && (forall k :: 0 <= k < |at| ==> 0 <= at[k] < |pending| && Sees(env, turn, pending[at[k]].agentId, candidates[k]))
    && (forall i :: 0 <= i < |pending| ==> (pending[i].agentId in env.registry <==> i in at))
  }

  lemma OneMoreSeen(env: Env, turn: nat, pending: seq<Spec>, candidates: seq<Avp>, at: seq<int>, spec: Spec)
    requires SeenAt(env, turn, pending, candidates, at)
    ensures if spec.agentId in env.registry
            then SeenAt(env, turn, pending + [spec], candidates + [Sampled(env, turn, spec.agentId)], at + [|pending|])
            else SeenAt(env, turn, pending + [spec], candidates, at)
  {
  }

  /** A turn chooses among the registered pending agents, each once per spec, in the order of the specs. */
  lemma {:induction false} CandidatesSeen(env: Env, turn: nat, pending: seq<Spec>) returns (at: seq<int>)
    ensures SeenAt(env, turn, pending, Candidates(env, turn, pending), at)
  {
    at := [];
    if pending != [] {
      var n := |pending| - 1;
      var front := CandidatesSeen(env, turn, pending[..n]);
      OneMoreSeen(env, turn, pending[..n], Candidates(env, turn, pending[..n]), front, pending[n]);
      assert pending == pending[..n] + [pending[n]];
      if pending[n].agentId in env.registry {
        at := front + [n];
      } else {
        assert Candidates(env, turn, pending[..n]) + [] == Candidates(env, turn, pending[..n]);
        at := front;
      }
    }
  }

  // ----- the pressure -----

  /** Usage was read for the spec at that position. */
  predicate WasRead(env: Env, turn: nat, pending: seq<Spec>, i: int) {
    0 <= i < |pending| && pending[i].agentId in env.registry && env.usage(turn, pending[i].agentId).Some?
  }

  function PressureRead(env: Env, turn: nat, pending: seq<Spec>, i: int): Pressure
    requires WasRead(env, turn, pending, i)
  {
    env.usage(turn, pending[i].agentId).value.pressure
  }

  /** One of the four pressures is the greatest read, or zero if none read is above it. */
  ghost predicate Greatest(part: Pressure -> real, env: Env, turn: nat, pending: seq<Spec>, p: Pressure) {
    && part(p) >= 0.0
    && (forall i :: WasRead(env, turn, pending, i) ==> part(PressureRead(env, turn, pending, i)) <= part(p))
    && (part(p) == 0.0 || exists i :: WasRead(env, turn, pending, i) && part(PressureRead(env, turn, pending, i)) == part(p))
  }

  ghost predicate TakesLarger(part: Pressure -> real) {
    && part(NO_PRESSURE) == 0.0
    && forall p, q :: part(MaxPressure(p, q)) == if part(p) > part(q) then part(p) else part(q)
  }

  lemma {:induction false} CombinedIsGreatest(part: Pressure -> real, env: Env, turn: nat, pending: seq<Spec>)
    requires TakesLarger(part)
    ensures var p := Combined(env, turn, pending);
      && (p.Some? <==> exists i :: WasRead(env, turn, pending, i))
      && Greatest(part, env, turn, pending, p.GetOr(NO_PRESSURE))
  {
    if pending != [] {
      var n := |pending| - 1;
      CombinedIsGreatest(part, env, turn, pending[..n]);
      OneMoreRead(part, env, turn, pending);
    }
  }

  lemma OneMoreRead(part: Pressure -> real, env: Env, turn: nat, pending: seq<Spec>)
    requires TakesLarger(part) && pending != []
    requires var front := pending[..|pending| - 1];
      && (Combined(env, turn, front).Some? <==> exists i :: WasRead(env, turn, front, i))
      && Greatest(part, env, turn, front, Combined(env, turn, front).GetOr(NO_PRESSURE))
    ensures var p := Combined(env, turn, pending);
      && (p.Some? <==> exists i :: WasRead(env, turn, pending, i))
      && Greatest(part, env, turn, pending, p.GetOr(NO_PRESSURE))
  {
    var n := |pending| - 1;
    var front := pending[..n];
    assert forall i :: 0 <= i < n ==> front[i] == pending[i];
    assert forall i :: WasRead(env, turn, front, i) ==> WasRead(env, turn, pending, i);
    assert forall i :: WasRead(env, turn, pending, i) && i != n ==> WasRead(env, turn, front, i);
    if WasRead(env, turn, pending, n) {
      var q := PressureRead(env, turn, pending, n);
      assert Combined(env, turn, pending) == Some(MaxPressure(Combined(env, turn, front).GetOr(NO_PRESSURE), q));
    }
  }

  /** The four pressures. */
  function PressureParts(): seq<Pressure -> real> {
    [(p: Pressure) => p.memory, (p: Pressure) => p.pids, (p: Pressure) => p.cpuThrottle, (p: Pressure) => p.psi]
  }

  /**
   * A turn in which no usage could be read keeps the pressure it has. Otherwise each of the four pressures is, to
   * half a thousandth and cut to 0..1, the greatest read for a registered pending agent.
   */
  lemma TurnPressure(env: Env, turn: nat, pending: seq<Spec>, before: Pressure) returns (greatest: Pressure)
    ensures (forall i :: !WasRead(env, turn, pending, i)) ==> PressureAt(env, turn, pending, before) == before
    ensures forall part :: part in PressureParts() ==> Greatest(part, env, turn, pending, greatest)
    ensures (exists i :: WasRead(env, turn, pending, i)) ==>
      var r := PressureAt(env, turn, pending, before);
      && Load(r.memory, greatest.memory, 0.0) && Load(r.pids, greatest.pids, 0.0)
      && Load(r.cpuThrottle, greatest.cpuThrottle, 0.0) && Load(r.psi, greatest.psi, 0.0)
  {
    greatest := Combined(env, turn, pending).GetOr(NO_PRESSURE);
    forall part | part in PressureParts()
      ensures Greatest(part, env, turn, pending, greatest)
    {
      assert TakesLarger(part);
      CombinedIsGreatest(part, env, turn, pending);
    }
    assert PressureParts()[0] in PressureParts();
    CombinedIsGreatest(PressureParts()[0], env, turn, pending);
    NormalizedLoads(greatest);
  }

  // ----- turn after turn -----

  /** The specs not yet launched, in order. */
  function Left(pending: seq<Spec>, launched: seq<Spec>): seq<Spec> {
    if pending == [] then []
    else
      var n := |pending| - 1;
      Left(pending[..n], launched) + if pending[n] in launched then [] else [pending[n]]
  }

  lemma {:induction false} NothingLaunched(pending: seq<Spec>)
    ensures Left(pending, []) == pending
  {
    if pending != [] {
      NothingLaunched(pending[..|pending| - 1]);
      assert pending == pending[..|pending| - 1] + [pending[|pending| - 1]];
    }
  }

  lemma {:induction false} LeftAppend(xs: seq<Spec>, ys: seq<Spec>, launched: seq<Spec>)
    ensures Left(xs + ys, launched) == Left(xs, launched) + Left(ys, launched)
  {
    if ys == [] {
      assert xs + ys == xs;
    } else {
      var n := |ys| - 1;
      assert (xs + ys)[..|xs + ys| - 1] == xs + ys[..n];
      LeftAppend(xs, ys[..n], launched);
    }
  }

  lemma {:induction false} LeftWithoutStranger(pending: seq<Spec>, spec: Spec, more: seq<Spec>)
    requires spec !in pending
    ensures Left(pending, [spec] + more) == Left(pending, more)
  {
    if pending != [] {
      var n := |pending| - 1;
      LeftWithoutStranger(pending[..n], spec, more);
      assert pending[n] in pending;
    }
  }

  lemma LeftOfParts(front: seq<Spec>, spec: Spec, back: seq<Spec>, more: seq<Spec>)
    requires spec !in front && spec !in back
    ensures Left(front + [spec] + back, [spec] + more) == Left(front + back, more)
  {
    var launched := [spec] + more;
    LeftAppend(front + [spec], back, launched);
    LeftAppend(front, [spec], launched);
    LeftAppend(front, back, more);
    LeftWithoutStranger(front, spec, more);
    LeftWithoutStranger(back, spec, more);
    LeftOfLaunched(spec, launched);
  }

  lemma LeftOfLaunched(spec: Spec, launched: seq<Spec>)
    requires spec in launched
    ensures Left([spec], launched) == []
  {
    assert [spec][..0] == [];
  }

  /** Launching one spec and then others leaves what launching the others of the rest leaves. */
  lemma LeftAfterOne(pending: seq<Spec>, i: nat, more: seq<Spec>)
    requires UniqueSpecs(pending) && i < |pending|
    ensures Left(pending, [pending[i]] + more) == Left(Removed(pending, i), more)
  {
    assert pending == pending[..i] + [pending[i]] + pending[i + 1..];
    LeftOfParts(pending[..i], pending[i], pending[i + 1..], more);
  }

  /** The loop at the start of a turn. */
  datatype Loop = Loop(policy: string, threshold: U64, last: Option<Avp>, pressure: Pressure, pending: seq<Spec>, turn: nat)

  /** From there the loop launches these. */
  ghost predicate Launches(env: Env, l: Loop, launched: seq<Spec>) {
    launched == DispatchFrom(env, l.policy, l.threshold, l.last, l.pressure, l.pending, l.turn).0
  }

  /** The pending agents are registered, each once. */
  ghost predicate KnownOnce(env: Env, l: Loop) {
    Registered(env, l.pending) && UniqueSpecs(l.pending)
  }

  /** In this turn the policy picks the agent of `spec`. */
  ghost predicate Picks(env: Env, l: Loop, spec: Spec) {
    && spec.agentId in env.registry
    && var cands := Candidates(env, l.turn, l.pending);
       && cands != []
       && Choose(l.policy, l.threshold, l.last, PressureAt(env, l.turn, l.pending, l.pressure), cands)
          == Sampled(env, l.turn, spec.agentId)
  }

  /** The pick before the `k`th, as it then was. */
  function PickBefore(env: Env, l: Loop, launched: seq<Spec>, k: nat): Option<Avp>
    requires k < |launched|
  {
    if k == 0 then l.last
    else if launched[k - 1].agentId in env.registry then Some(Sampled(env, l.turn + k - 1, launched[k - 1].agentId))
    else None
  }

  /** The pressure sampled before the `k`th pick. */
  function PressureBefore(env: Env, l: Loop, k: nat): Pressure {
    if k == 0 then l.pressure else Normalize(env.samples(l.turn + k - 1))
  }

  /**
   * The `k`th launch is what the policy picks among the specs not launched before it, as they are in that turn; against
   * the pick before it; and under the pressure read in that turn or else sampled after the turn before.
   */
  ghost predicate Decides(env: Env, l: Loop, launched: seq<Spec>, k: nat)
    requires k < |launched|
  {
    Picks(env, AtLaunch(env, l, launched, k), launched[k])
  }

  function AtLaunch(env: Env, l: Loop, launched: seq<Spec>, k: nat): Loop
    requires k < |launched|
  {
    Loop(l.policy, l.threshold, PickBefore(env, l, launched, k), PressureBefore(env, l, k),
         Left(l.pending, launched[..k]), l.turn + k)
  }

  /** The loop after launching the spec at `i`. */
  function Continued(env: Env, l: Loop, i: nat): Loop
    requires i < |l.pending| && l.pending[i].agentId in env.registry
  {
    Loop(l.policy, l.threshold, Some(Sampled(env, l.turn, l.pending[i].agentId)), Normalize(env.samples(l.turn)),
         Removed(l.pending, i), l.turn + 1)
  }

  lemma PicksFirst(env: Env, policy: string, threshold: U64, last: Option<Avp>, pressure: Pressure, pending: seq<Spec>, turn: nat)
    returns (i: nat)
    requires Registered(env, pending) && UniqueSpecs(pending) && pending != []
    ensures i < |pending| && Picks(env, Loop(policy, threshold, last, pressure, pending, turn), pending[i])
    ensures Registered(env, Removed(pending, i)) && UniqueSpecs(Removed(pending, i))
    ensures PopSpec(pending, pending[i].agentId) == (pending[i], Removed(pending, i))
    ensures var ready := ReadyAgents(Candidates(env, turn, pending));
      && ready != [] && Sampled(env, turn, pending[i].agentId).id == pending[i].agentId
      && Choose(policy, threshold, last, PressureAt(env, turn, pending, pressure), ready) == Sampled(env, turn, pending[i].agentId)
  {
    i := NextPick(env, policy, threshold, last, pressure, pending, turn);
    CandidatesMatch(env, turn, pending);
    PopsTheSpec(pending, i);
    RemovedKeeps(env, pending, i);
    assert pending[i] in pending;
  }

  /** A loop that launches anything starts the spec it picked first, and goes on with the rest. */
  lemma {:induction false} FirstTurn(env: Env, l: Loop, launched: seq<Spec>) returns (i: nat, more: seq<Spec>)
    requires KnownOnce(env, l) && Launches(env, l, launched) && launched != []
    ensures i < |l.pending| && Picks(env, l, l.pending[i]) && launched == [l.pending[i]] + more
    ensures KnownOnce(env, Continued(env, l, i)) && Launches(env, Continued(env, l, i), more)
  {
    assert l == Loop(l.policy, l.threshold, l.last, l.pressure, l.pending, l.turn);
    i := PicksFirst(env, l.policy, l.threshold, l.last, l.pressure, l.pending, l.turn);
    more := LaunchesRest(env, l, i, launched);
  }

  lemma {:induction false} LaunchesRest(env: Env, l: Loop, i: nat, launched: seq<Spec>) returns (more: seq<Spec>)
    requires i < |l.pending| && l.pending[i].agentId in env.registry && Launches(env, l, launched) && launched != []
    requires PopSpec(l.pending, l.pending[i].agentId) == (l.pending[i], Removed(l.pending, i))
    requires var ready := ReadyAgents(Candidates(env, l.turn, l.pending));
      && ready != [] && Sampled(env, l.turn, l.pending[i].agentId).id == l.pending[i].agentId
      && Choose(l.policy, l.threshold, l.last, PressureAt(env, l.turn, l.pending, l.pressure), ready)
         == Sampled(env, l.turn, l.pending[i].agentId)
    ensures launched == [l.pending[i]] + more && Launches(env, Continued(env, l, i), more)
  {
    more := RestOf(env, l, l.pending[i], Continued(env, l, i), launched);
  }

  lemma {:induction false} RestOf(env: Env, l: Loop, spec: Spec, next: Loop, launched: seq<Spec>) returns (more: seq<Spec>)
    requires l.pending != [] && Launches(env, l, launched) && launched != [] && next.last.Some?
    requires next == Loop(l.policy, l.threshold, next.last, Normalize(env.samples(l.turn)), next.pending, l.turn + 1)
    requires var ready := ReadyAgents(Candidates(env, l.turn, l.pending));
      ready != [] && Choose(l.policy, l.threshold, l.last, PressureAt(env, l.turn, l.pending, l.pressure), ready) == next.last.value
    requires PopSpec(l.pending, next.last.value.id) == (spec, next.pending)
    ensures launched == [spec] + more && Launches(env, next, more)
  {
    DispatchUnfold(env, l.policy, l.threshold, l.last, l.pressure, l.pending, l.turn);
    more := DispatchFrom(env, next.policy, next.threshold, next.last, next.pressure, next.pending, next.turn).0;
  }

  lemma FirstDecides(env: Env, l: Loop, spec: Spec, more: seq<Spec>)
    requires Picks(env, l, spec)
    ensures Decides(env, l, [spec] + more, 0)
  {
    assert ([spec] + more)[..0] == [];
    NothingLaunched(l.pending);
  }

  lemma LaterLaunch(env: Env, l: Loop, i: nat, more: seq<Spec>, k: nat)
    requires KnownOnce(env, l) && i < |l.pending| && l.pending[i].agentId in env.registry && 0 < k <= |more|
    ensures AtLaunch(env, l, [l.pending[i]] + more, k) == AtLaunch(env, Continued(env, l, i), more, k - 1)
  {
    assert ([l.pending[i]] + more)[..k] == [l.pending[i]] + more[..k - 1];
    LeftAfterOne(l.pending, i, more[..k - 1]);
    assert k > 1 ==> ([l.pending[i]] + more)[k - 1] == more[k - 2];
  }

  lemma LaterDecides(env: Env, l: Loop, i: nat, more: seq<Spec>, k: nat)
    requires KnownOnce(env, l) && i < |l.pending| && l.pending[i].agentId in env.registry && 0 < k <= |more|
    requires Decides(env, Continued(env, l, i), more, k - 1)
    ensures Decides(env, l, [l.pending[i]] + more, k)
  {
    LaterLaunch(env, l, i, more, k);
    assert ([l.pending[i]] + more)[k] == more[k - 1];
  }

  /** Every launch of the loop is decided so. */
  lemma {:induction false} EveryTurnDecides(env: Env, l: Loop, launched: seq<Spec>, k: nat)
    requires KnownOnce(env, l) && Launches(env, l, launched) && k < |launched|
    ensures Decides(env, l, launched, k)
    decreases k
  {
    var i, more := FirstTurn(env, l, launched);
    if k == 0 {
      FirstDecides(env, l, l.pending[i], more);
    } else {
      var rest := Continued(env, l, i);
      assert KnownOnce(env, rest) && Launches(env, rest, more) && k - 1 < |more|;
      EveryTurnDecides(env, rest, more, k - 1);
      LaterDecides(env, l, i, more, k);
    }
  }

  // ----- how the loop ends -----

  ghost predicate Ends(env: Env, l: Loop, launched: seq<Spec>, outcome: Outcome) {
    (launched, outcome) == DispatchFrom(env, l.policy, l.threshold, l.last, l.pressure, l.pending, l.turn)
  }

  /** Every launched spec started; if all did none is left, and otherwise one that is left did not start. */
  ghost predicate EndsRight(env: Env, pending: seq<Spec>, launched: seq<Spec>, outcome: Outcome) {
    && (forall s :: s in launched ==> env.starts(s))
    && match outcome
       case Launched => Left(pending, launched) == []
       case StartFailed => exists s :: s in Left(pending, launched) && !env.starts(s)
       case NoReadyAgents => false
  }

  lemma EndsLater(env: Env, pending: seq<Spec>, i: nat, more: seq<Spec>, outcome: Outcome)
    requires UniqueSpecs(pending) && i < |pending| && env.starts(pending[i]) && EndsRight(env, Removed(pending, i), more, outcome)
    ensures EndsRight(env, pending, [pending[i]] + more, outcome)
  {
    LeftAfterOne(pending, i, more);
  }

  /** The loop goes on to its pick's successor, or ends for want of a start. */
  lemma {:induction false} FirstOutcome(env: Env, l: Loop, launched: seq<Spec>, outcome: Outcome)
    returns (i: nat, more: seq<Spec>)
    requires KnownOnce(env, l) && Ends(env, l, launched, outcome) && l.pending != []
    ensures i < |l.pending| && l.pending[i].agentId in env.registry && KnownOnce(env, Continued(env, l, i))
    ensures if env.starts(l.pending[i]) then launched == [l.pending[i]] + more && Ends(env, Continued(env, l, i), more, outcome)
            else launched == [] && outcome == StartFailed
  {
    assert l == Loop(l.policy, l.threshold, l.last, l.pressure, l.pending, l.turn);
    i := PicksFirst(env, l.policy, l.threshold, l.last, l.pressure, l.pending, l.turn);
    more := OutcomeOfRest(env, l, l.pending[i], Continued(env, l, i), launched, outcome);
  }

  lemma {:induction false} OutcomeOfRest(env: Env, l: Loop, spec: Spec, next: Loop, launched: seq<Spec>, outcome: Outcome)
    returns (more: seq<Spec>)
    requires l.pending != [] && Ends(env, l, launched, outcome) && next.last.Some?
    requires next == Loop(l.policy, l.threshold, next.last, Normalize(env.samples(l.turn)), next.pending, l.turn + 1)
    requires var ready := ReadyAgents(Candidates(env, l.turn, l.pending));
      ready != [] && Choose(l.policy, l.threshold, l.last, PressureAt(env, l.turn, l.pending, l.pressure), ready) == next.last.value
    requires PopSpec(l.pending, next.last.value.id) == (spec, next.pending)
    ensures if env.starts(spec) then launched == [spec] + more && Ends(env, next, more, outcome)
            else launched == [] && outcome == StartFailed
  {
    DispatchUnfold(env, l.policy, l.threshold, l.last, l.pressure, l.pending, l.turn);
    more := DispatchFrom(env, next.policy, next.threshold, next.last, next.pressure, next.pending, next.turn).0;
  }

  /** The loop launches everything, or stops before the first spec that does not start. */
  lemma {:induction false} LaunchesUntilFailure(env: Env, l: Loop, launched: seq<Spec>, outcome: Outcome)
    requires KnownOnce(env, l) && Ends(env, l, launched, outcome)
    ensures EndsRight(env, l.pending, launched, outcome)
    decreases |l.pending|
  {
    if l.pending != [] {
      var i, more := FirstOutcome(env, l, launched, outcome);
      if env.starts(l.pending[i]) {
        LaunchesUntilFailure(env, Continued(env, l, i), more, outcome);
        EndsLater(env, l.pending, i, more, outcome);
      } else {
        NothingLaunched(l.pending);
        assert l.pending[i] in l.pending;
      }
    }
  }
}
