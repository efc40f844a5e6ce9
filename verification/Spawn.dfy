/** A child takes over its parent's pages one mount at a time while other threads use the store. */
module Spawn {
  import opened Prelude
  import opened CvmModel
  import opened CvmIndex
  import opened CvmLedger
  import opened Exchange
  import opened ExchangeOrder
  import G = GatewayModel

  /** The pages the child mounts in steps `i` to `k`, in order. */
  function MountsOf(steps: seq<(Step, int)>, child: AgentId, i: nat, k: nat): seq<PageId>
    requires i <= k <= |steps|
  {
    if i == k then []
    else MountsOf(steps, child, i, k - 1) + MountIn(steps[k - 1].0, child)
  }

  function MountIn(step: Step, child: AgentId): seq<PageId> {
    if step.Do? && step.call.Mount? && step.call.agent == child then [step.call.id] else []
  }

  /** The child writes no delta and releases nothing; the parent releases nothing. */
  ghost predicate Undisturbed(y: System, step: Step, parent: AgentId, child: AgentId) {
    match step
    case Do(Release(b, _)) => b == "" || (b != parent && b != child)
    case DraftMount(t) => t in y.drafts ==> y.drafts[t].agent != child
    case _ => true
  }

  /** The parent's pages stay in its table. */
  lemma {:induction false} ParentKeeps(c: Codec, run: seq<System>, steps: seq<(Step, int)>, parent: AgentId, child: AgentId,
                                       i: nat, k: nat, id: PageId)
    requires BalancedRun(c, run, steps) && i <= k < |run| && id in Table(run[i].store, parent)
    requires forall j :: i <= j < k ==> Undisturbed(run[j], steps[j].0, parent, child)
    ensures id in Table(run[k].store, parent)
  {
    if i < k {
      ParentKeeps(c, run, steps, parent, child, i, k - 1, id);
      LedgerInEveryRun(c, run, steps, k - 1);
      ParentStep(c, run[k - 1], steps[k - 1].0, steps[k - 1].1, parent, child, id);
    }
  }

  lemma ParentStep(c: Codec, y: System, step: Step, now: int, parent: AgentId, child: AgentId, id: PageId)
    requires Ledger(y) && Balanced(y, step) && Undisturbed(y, step, parent, child) && id in Table(y.store, parent)
    ensures id in Table(Next(c, y, step, now).store, parent)
  {
    StepKeepsMounted(c, y, step, now, parent, id);
  }

  lemma TableIsLive(y: System, a: AgentId, id: PageId)
    requires Ledger(y) && id in Table(y.store, a)
    ensures id in y.store.pages
  {
  }

  /** One step extends the child's table by the page it mounts, if any and if new. */
  lemma ChildStep(c: Codec, y: System, step: Step, now: int, parent: AgentId, child: AgentId)
    requires Counted(y) && Balanced(y, step) && Undisturbed(y, step, parent, child)
    requires forall id :: id in MountIn(step, child) ==> id in y.store.pages
    ensures Table(Next(c, y, step, now).store, child) == G.AppendAllNew(Table(y.store, child), MountIn(step, child))
  {
    if MountIn(step, child) == [] {
      StepKeepsTable(c, y, step, now, child);
    } else {
      var id := step.call.id;
      assert id in MountIn(step, child);
      assert [id][1..] == [];
      assert G.AppendAllNew(Table(y.store, child), [id]) == G.AppendAllNew(AppendNew(Table(y.store, child), id), []);
    }
  }

  lemma {:induction false} ChildTable(c: Codec, run: seq<System>, steps: seq<(Step, int)>, parent: AgentId, child: AgentId,
                                      i: nat, k: nat)
    requires BalancedRun(c, run, steps) && i <= k < |run|
    requires forall j :: i <= j < k ==> Undisturbed(run[j], steps[j].0, parent, child)
    requires forall id :: id in MountsOf(steps, child, i, k) ==> id in Table(run[i].store, parent)
    ensures Table(run[k].store, child) == G.AppendAllNew(Table(run[i].store, child), MountsOf(steps, child, i, k))
  {
    if i < k {
      ChildTable(c, run, steps, parent, child, i, k - 1);
      LedgerInEveryRun(c, run, steps, k - 1);
      if MountIn(steps[k - 1].0, child) != [] {
        var id := steps[k - 1].0.call.id;
        assert id in MountsOf(steps, child, i, k);
        ParentKeeps(c, run, steps, parent, child, i, k - 1, id);
        TableIsLive(run[k - 1], parent, id);
      }
      ChildStep(c, run[k - 1], steps[k - 1].0, steps[k - 1].1, parent, child);
      G.AppendAllNewSplit(Table(run[i].store, child), MountsOf(steps, child, i, k - 1), MountIn(steps[k - 1].0, child));
    }
  }

  /**
   * In every balanced run a spawn that reads its parent's table at step `i` and has mounted all of it by step `k`,
   * others interleaving freely, leaves the child with its own pages and then its parent's new ones, in the parent's
   * order, while the parent releases none of them.
   */
  lemma SpawnInherits(c: Codec, run: seq<System>, steps: seq<(Step, int)>, parent: AgentId, child: AgentId, i: nat, k: nat)
    requires BalancedRun(c, run, steps) && i <= k < |run|
    requires forall j :: i <= j < k ==> Undisturbed(run[j], steps[j].0, parent, child)
    requires MountsOf(steps, child, i, k) == Table(run[i].store, parent)
    ensures Table(run[k].store, child) == G.AppendAllNew(Table(run[i].store, child), Table(run[i].store, parent))
    ensures NoDup(Table(run[k].store, child)) && Table(run[i].store, child) <= Table(run[k].store, child)
    ensures forall id :: id in Table(run[k].store, child) <==>
              id in Table(run[i].store, child) || id in Table(run[i].store, parent)
  {
    ChildTable(c, run, steps, parent, child, i, k);
    LedgerInEveryRun(c, run, steps, i);
    assert NoDup(Table(run[i].store, child));
    G.AppendAllNewKeeps(Table(run[i].store, child), Table(run[i].store, parent));
  }
}
