/** The scheduler object: its methods compute the choices the model defines. */
module Scheduler {
  import opened Prelude
  import opened AvpModel
  import opened SchedulerModel

  datatype Decision = Decision(taskId: string, policy: string, candidates: seq<string>, selected: string)

  function Ids(agents: seq<Avp>): seq<string> {
    seq(|agents|, i requires 0 <= i < |agents| => agents[i].id)
  }

  class Scheduler {
    var policy: string
    var affinityThreshold: U64
    var last: Option<Avp>
    var decisions: seq<Decision>
    var resourcePressure: Pressure

    constructor (policy: string)
      ensures this.policy == if policy == "" then FIFO else policy
      ensures affinityThreshold == 50 && last == None && decisions == []
      ensures resourcePressure == Pressure(0.0, 0.0, 0.0, 0.0)
    {
      this.policy := if policy == "" then FIFO else policy;
      affinityThreshold, last, decisions := 50, None, [];
      resourcePressure := Pressure(0.0, 0.0, 0.0, 0.0);
    }

    method SetPolicy(policy: string) returns (r: Result<()>)
      modifies this`policy
      ensures r.Ok? <==> policy in {FIFO, TOKEN_CFS, PREFIX_AFFINITY, RESOURCE_AWARE}
      ensures this.policy == if r.Ok? then policy else old(this.policy)
    {
      if policy != FIFO && policy != TOKEN_CFS && policy != PREFIX_AFFINITY && policy != RESOURCE_AWARE {
        return Err(NotFound);
      }
      this.policy := policy;
      r := Ok(());
    }

    method SetResourcePressure(pressure: Pressure)
      modifies this`resourcePressure
      ensures resourcePressure == Normalize(pressure)
    {
      resourcePressure := Normalize(pressure);
    }

    method RememberLast(agent: Avp)
      modifies this`last
      ensures last == Some(agent)
    {
      last := Some(agent);
    }

    /** Picks among the ready candidates, remembers the pick and logs the decision. */
    method Select(taskId: string, candidates: seq<Avp>) returns (r: Option<Avp>)
      modifies this`last, this`decisions
      ensures var ready := ReadyAgents(candidates);
        if ready == [] then r == None && last == old(last) && decisions == old(decisions)
        else
          && r == Some(Choose(policy, affinityThreshold, old(last), resourcePressure, ready))
          && last == r
          && decisions == old(decisions) + [Decision(taskId, policy, Ids(ready), r.value.id)]
    {
      var ready := FilterReady(candidates);
      if |ready| == 0 {
        return None;
      }
      var selected := SelectLocked(ready);
      var decision := Decision(taskId, policy, Ids(ready), selected.id);
      last := Some(selected);
      decisions := decisions + [decision];
      r := Some(selected);
    }

    method SelectLocked(candidates: seq<Avp>) returns (r: Avp)
      requires candidates != []
      ensures r == Choose(policy, affinityThreshold, last, resourcePressure, candidates)
    {
      if policy == TOKEN_CFS {
        r := MinVRuntime(candidates);
      } else if policy == PREFIX_AFFINITY {
        r := SelectPrefixAffinity(candidates);
      } else if policy == RESOURCE_AWARE {
        r := SelectResourceAware(candidates);
      } else {
        r := Fifo(candidates);
      }
    }

    method SelectPrefixAffinity(candidates: seq<Avp>) returns (best: Avp)
      requires candidates != []
      ensures best == PrefixAffinity(last, affinityThreshold, candidates)
    {
      var base := MinVRuntime(candidates);
      var shared := CountShared(candidates);
      if last.None? {
        return base;
      }
      best := base;
      var bestShared := Lookup(shared, base.id);
      for i := 0 to |candidates|
        invariant best == AffinityScan(candidates[..i], shared, base, affinityThreshold)
        invariant bestShared == Lookup(shared, best.id)
      {
        var candidate := candidates[i];
        assert candidates[..i + 1][..i] == candidates[..i];
        if Lookup(shared, candidate.id) <= bestShared {
          continue;
        }
        if VRuntimeDistance(candidate.vruntime, base.vruntime) <= affinityThreshold {
          best := candidate;
          bestShared := Lookup(shared, candidate.id);
        }
      }
      assert candidates[..|candidates|] == candidates;
    }

    method SelectResourceAware(candidates: seq<Avp>) returns (best: Avp)
      requires candidates != []
      ensures best == BestScore(resourcePressure, SharedPages(last, candidates), candidates)
    {
      var shared := CountShared(candidates);
      best := candidates[0];
      var bestScore: Option<real> := None; // below every score
      for i := 0 to |candidates|
        invariant bestScore.None? <==> i == 0
        invariant i > 0 ==> best == BestScore(resourcePressure, shared, candidates[..i])
        invariant i > 0 ==> bestScore == Some(ScoreOf(resourcePressure, shared, best))
      {
        var candidate := candidates[i];
        assert candidates[..i + 1][..i] == candidates[..i];
        var score := ScoreOf(resourcePressure, shared, candidate);
        if bestScore.None? || score > bestScore.value
           || (score == bestScore.value && candidate.createdAt < best.createdAt) {
          best := candidate;
          bestScore := Some(score);
        }
      }
      assert candidates[..|candidates|] == candidates;
    }

    method CountShared(candidates: seq<Avp>) returns (out: map<string, nat>)
      ensures out == SharedPages(last, candidates)
    {
      out := map[];
      var lastPages := LastPages(last);
      if last.None? {
        NothingShared(candidates);
        return;
      }
      for i := 0 to |candidates|
        invariant out == SharedPages(last, candidates[..i])
      {
        assert candidates[..i + 1][..i] == candidates[..i];
        out := CountPages(candidates[i].id, AllPages(candidates[i]), lastPages, out);
      }
      assert candidates[..|candidates|] == candidates;
    }

    /** Adds one to the candidate's count for each of its pages that is among the last agent's. */
    method CountPages(id: string, pages: seq<string>, lastPages: set<string>, before: map<string, nat>)
      returns (out: map<string, nat>)
      ensures var n := CountIn(pages, lastPages);
        out == if n == 0 then before else before[id := Lookup(before, id) + n]
    {
      out := before;
      for j := 0 to |pages|
        invariant var n := CountIn(pages[..j], lastPages);
          out == if n == 0 then before else before[id := Lookup(before, id) + n]
      {
        assert pages[..j + 1][..j] == pages[..j];
        if pages[j] in lastPages {
          out := out[id := Lookup(out, id) + 1];
        }
      }
      assert pages[..|pages|] == pages;
    }

    lemma {:induction false} NothingShared(candidates: seq<Avp>)
      ensures SharedPages(None, candidates) == map[]
    {
      if candidates != [] {
        NothingShared(candidates[..|candidates| - 1]);
        CountInNothing(AllPages(candidates[|candidates| - 1]));
      }
    }

    method FilterReady(candidates: seq<Avp>) returns (ready: seq<Avp>)
      ensures ready == ReadyAgents(candidates)
    {
      ready := [];
      for i := 0 to |candidates|
        invariant ready == ReadyAgents(candidates[..i])
      {
        assert candidates[..i + 1][..i] == candidates[..i];
        if candidates[i].state == Ready {
          ready := ready + [candidates[i]];
        }
      }
      assert candidates[..|candidates|] == candidates;
    }
  }
}
