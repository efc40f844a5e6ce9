/** The task graph: which nodes are ready, and that completing ready nodes finishes every acyclic graph. */
module Dag {
  import opened Prelude
  import opened Sorting

  type Deps = map<string, seq<string>>

  /** Incomplete with every dependency complete. */
  predicate IsReady(deps: Deps, completed: set<string>, n: string) {
    n in deps && n !in completed && forall d :: d in deps[n] ==> d in completed
  }

  function Elements(s: seq<string>): set<string> {
    set x | x in s
  }

  class Graph {
    var deps: Deps

    constructor ()
      ensures deps == map[]
    {
      deps := map[];
    }

    method AddNode(id: string, dependencies: seq<string>)
      modifies this
      ensures deps == old(deps)[id := dependencies]
    {
      deps := deps[id := dependencies];
    }

    /** The ready nodes, each once, in string order. */
    method Ready(completed: set<string>) returns (ready: seq<string>)
      ensures forall n :: n in ready <==> IsReady(deps, completed, n)
      ensures NoDup(ready) && Sorted(StrLess, ready)
    {
      var found: seq<string> := [];
      var todo := deps.Keys;
      while todo != {}
        invariant todo <= deps.Keys
        invariant NoDup(found)
        invariant forall n :: n in found <==> n !in todo && IsReady(deps, completed, n)
        decreases |todo|
      {
        var node :| node in todo;
        todo := todo - {node};
        if node in completed {
          continue;
        }
        var allDone, i := true, 0;
        while i < |deps[node]|
          invariant i <= |deps[node]| && allDone
          invariant forall j :: 0 <= j < i ==> deps[node][j] in completed
        {
          if deps[node][i] !in completed {
            allDone := false;
            break;
          }
          i := i + 1;
        }
        if allDone {
          found := found + [node];
        }
      }
      StrLessIsOrder();
      StableSortSorts(StrLess, found);
      ready := StableSort(StrLess, found);
      InMultiset(ready, found);
      NoDupByMultiset(found, ready);
    }
  }

  // ----- acyclic graphs -----

  /** Every dependency is a node and ranks below its dependents. */
  ghost predicate Ranked(deps: Deps, rank: string -> nat) {
    forall n, d :: n in deps && d in deps[n] ==> d in deps && rank(d) < rank(n)
  }

  /** All nodes, each once and after its dependencies. */
  ghost predicate Topological(deps: Deps, order: seq<string>) {
    && NoDup(order)
    && (forall n :: n in order <==> n in deps)
    && AfterDependencies(deps, order)
  }

  ghost predicate AfterDependencies(deps: Deps, order: seq<string>)
    requires forall n :: n in order ==> n in deps
  {
    forall i, d :: 0 <= i < |order| && d in deps[order[i]] ==> d in order[..i]
  }

  /** Each node is ready when its turn comes. */
  ghost predicate Schedule(deps: Deps, order: seq<string>) {
    forall i :: 0 <= i < |order| ==> IsReady(deps, Elements(order[..i]), order[i])
  }

  /** Whenever a node is incomplete, some node is ready. */
  ghost predicate NeverStuck(deps: Deps) {
    forall completed: set<string>, n :: n in deps && n !in completed ==> exists m :: IsReady(deps, completed, m)
  }

  /** Below any incomplete node there is a ready one. */
  lemma {:induction false} ReadyBelow(deps: Deps, rank: string -> nat, completed: set<string>, n: string) returns (m: string)
    requires Ranked(deps, rank) && n in deps && n !in completed
    ensures IsReady(deps, completed, m) && rank(m) <= rank(n)
    decreases rank(n)
  {
    if forall d :: d in deps[n] ==> d in completed {
      m := n;
    } else {
      var d :| d in deps[n] && d !in completed;
      m := ReadyBelow(deps, rank, completed, d);
    }
  }

  /** An acyclic graph never gets stuck. */
  lemma AcyclicNeverStuck(deps: Deps, rank: string -> nat)
    requires Ranked(deps, rank)
    ensures NeverStuck(deps)
  {
    forall completed: set<string>, n | n in deps && n !in completed
      ensures exists m :: IsReady(deps, completed, m)
    {
      var m := ReadyBelow(deps, rank, completed, n);
    }
  }

  lemma TakeMember<T>(s: seq<T>, k: nat, x: T)
    requires k <= |s| && x in s[..k]
    ensures exists j :: 0 <= j < k && s[j] == x
  {
    var j :| 0 <= j < |s[..k]| && s[..k][j] == x;
    assert s[j] == x;
  }

  /** A schedule completes nodes at most once and after their dependencies. */
  lemma ScheduleIsOrdered(deps: Deps, order: seq<string>)
    requires Schedule(deps, order)
    ensures NoDup(order) && (forall n :: n in order ==> n in deps) && AfterDependencies(deps, order)
  {
    forall i, j | 0 <= i < j < |order|
      ensures order[i] != order[j]
    {
      assert order[..j][i] == order[i];
      assert IsReady(deps, Elements(order[..j]), order[j]);
    }
    forall i, d | 0 <= i < |order| && d in deps[order[i]]
      ensures d in order[..i]
    {
      assert IsReady(deps, Elements(order[..i]), order[i]);
    }
  }

  /** Completing any ready node, again and again, takes at most as many turns as there are nodes. */
  lemma ScheduleIsShort(deps: Deps, order: seq<string>)
    requires Schedule(deps, order)
    ensures |order| <= |deps|
  {
    ScheduleIsOrdered(deps, order);
    DistinctWithin(order, deps.Keys);
    assert |deps.Keys| == |deps|;
  }

  lemma {:induction false} DistinctWithin(s: seq<string>, all: set<string>)
    requires NoDup(s) && forall x :: x in s ==> x in all
    ensures |s| <= |all|
  {
    if s != [] {
      var last := s[|s| - 1];
      var front := s[..|s| - 1];
      assert last in s;
      forall x | x in front
        ensures x in all - {last}
      {
        assert x in s;
      }
      DistinctWithin(front, all - {last});
    }
  }

  ghost predicate NothingReady(deps: Deps, completed: set<string>) {
    forall n :: !IsReady(deps, completed, n)
  }

  /** Where a graph never gets stuck, a schedule that cannot go on has completed every node. */
  lemma StoppedScheduleIsTopological(deps: Deps, order: seq<string>)
    requires NeverStuck(deps) && Schedule(deps, order)
    requires NothingReady(deps, Elements(order))
    ensures Topological(deps, order)
  {
    ScheduleIsOrdered(deps, order);
    NothingReadyNothingLeft(deps, Elements(order));
    forall n
      ensures n in order <==> n in deps
    {
      assert n in order <==> n in Elements(order);
    }
  }

  lemma NothingReadyNothingLeft(deps: Deps, completed: set<string>)
    requires NeverStuck(deps) && NothingReady(deps, completed)
    ensures deps.Keys <= completed
  {
  }

  lemma OneStepFurther(deps: Deps, order: seq<string>, m: string)
    requires Schedule(deps, order) && IsReady(deps, Elements(order), m)
    ensures Schedule(deps, order + [m])
  {
    var next := order + [m];
    forall i | 0 <= i < |next|
      ensures IsReady(deps, Elements(next[..i]), next[i])
    {
      if i < |order| {
        assert next[..i] == order[..i];
      } else {
        assert next[..i] == order;
      }
    }
  }

  /** Any schedule of such a graph can be carried on to a topological order. */
  lemma {:induction false} ScheduleExtends(deps: Deps, order: seq<string>) returns (whole: seq<string>)
    requires NeverStuck(deps) && Schedule(deps, order)
    ensures order <= whole && Schedule(deps, whole) && Topological(deps, whole)
    decreases |deps| - |order|
  {
    ScheduleIsShort(deps, order);
    if m :| IsReady(deps, Elements(order), m) {
      OneStepFurther(deps, order, m);
      ScheduleIsShort(deps, order + [m]);
      whole := ScheduleExtends(deps, order + [m]);
    } else {
      whole := order;
      StoppedScheduleIsTopological(deps, order);
    }
  }

  /** From a topological order one reads off ranks. */
  function Position(order: seq<string>, n: string): nat {
    if order == [] || order[0] == n then 0 else 1 + Position(order[1..], n)
  }

  lemma {:induction false} PositionAt(order: seq<string>, i: nat)
    requires NoDup(order) && i < |order|
    ensures Position(order, order[i]) == i
  {
    if i > 0 {
      assert order[1..][i - 1] == order[i];
      PositionAt(order[1..], i - 1);
    }
  }

  lemma TopologicalIsRanked(deps: Deps, order: seq<string>)
    requires Topological(deps, order)
    ensures Ranked(deps, n => Position(order, n))
  {
    forall n, d | n in deps && d in deps[n]
      ensures d in deps && Position(order, d) < Position(order, n)
    {
      assert n in order;
      var i :| 0 <= i < |order| && order[i] == n;
      TakeMember(order, i, d);
      var j :| 0 <= j < i && order[j] == d;
      PositionAt(order, i);
      PositionAt(order, j);
      assert d in order;
    }
  }

  /** Acyclic with all dependencies present, if and only if never stuck. */
  lemma NeverStuckIffAcyclic(deps: Deps)
    ensures NeverStuck(deps) <==> exists rank: string -> nat :: Ranked(deps, rank)
  {
    if NeverStuck(deps) {
      var whole := ScheduleExtends(deps, []);
      TopologicalIsRanked(deps, whole);
    }
    if rank: string -> nat :| Ranked(deps, rank) {
      AcyclicNeverStuck(deps, rank);
    }
  }

  /** Completing more nodes never un-readies one that is still incomplete. */
  lemma ReadyIsStable(deps: Deps, completed: set<string>, more: set<string>, n: string)
    requires IsReady(deps, completed, n) && completed <= more && n !in more
    ensures IsReady(deps, more, n)
  {
  }
}
