/**
 * Several polls of one subscriber at once: when every schedule of their mounts keeps the table in log order.
 */
module PollSchedules {
  import opened Prelude
  import opened CvmModel
  import opened CvmIndex
  import opened CvmLedger
  import opened Exchange
  import opened ExchangeOrder
  import G = GatewayModel
  import Bb = Blackboard

  /** The pages that the polls still hold, poll after poll. */
  function Rests(polls: map<Thread, Frame>, order: seq<Thread>): seq<PageId>
    requires forall t :: t in order ==> t in polls
  {
    if order == [] then [] else polls[order[0]].rest + Rests(polls, order[1..])
  }

  /** Polls of one subscription under way, listed in the order in which they began. */
  ghost predicate Pending(w: World, a: AgentId, p: string, order: seq<Thread>) {
    forall t :: t in order ==> t in w.polls && w.polls[t].agent == a && w.polls[t].topic == p
  }

  /** The table with all their pages appended in that order. */
  function Wanted(w: World, a: AgentId, order: seq<Thread>): seq<PageId>
    requires forall t :: t in order ==> t in w.polls
  {
    G.AppendAllNew(Table(w.system.store, a), Rests(w.polls, order))
  }

  /** Of the agent's mounts only those of these polls go on; it writes no delta and releases nothing. */
  ghost predicate OnlyThese(w: World, move: Move, a: AgentId, order: seq<Thread>) {
    match move
    case Cvm(Do(Mount(b, _))) => b != a
    case Cvm(Do(Release(b, _))) => b != a || a == ""
    case Cvm(DraftMount(r)) => r in w.system.drafts ==> w.system.drafts[r].agent != a
    case PollMount(r) => r in order || (r in w.polls ==> w.polls[r].agent != a)
    case _ => true
  }

  /** A schedule: the polls mount in any order, and others do as they like in between. */
  ghost predicate Schedule(c: Codec, run: seq<World>, moves: seq<(Move, int)>, a: AgentId, p: string, order: seq<Thread>) {
    && |run| == |moves| + 1
    && forall i :: 0 <= i < |moves| ==>
         && Possible(run[i], moves[i].0) && Retains(run[i], moves[i].0, a, p) && OnlyThese(run[i], moves[i].0, a, order)
         && run[i + 1] == Advance(c, run[i], moves[i].0, moves[i].1)
  }

  /** Throughout the schedule the table is the beginning of what is wanted. */
  ghost predicate InOrderThroughout(run: seq<World>, a: AgentId, wanted: seq<PageId>) {
    forall k :: 0 <= k < |run| ==> Table(run[k].system.store, a) <= wanted
  }

  /** Every schedule from `w` keeps to the wanted order. */
  ghost predicate AlwaysInOrder(c: Codec, w: World, a: AgentId, p: string, order: seq<Thread>)
    requires Pending(w, a, p, order)
  {
    forall run: seq<World>, moves: seq<(Move, int)> ::
      Schedule(c, run, moves, a, p, order) && run[0] == w ==> InOrderThroughout(run, a, Wanted(w, a, order))
  }

  /** Each poll alone would append only the beginning of what all of them append. */
  ghost predicate EachFits(w: World, a: AgentId, p: string, order: seq<Thread>)
    requires Pending(w, a, p, order)
  {
    forall t :: t in order ==> G.AppendAllNew(Table(w.system.store, a), w.polls[t].rest) <= Wanted(w, a, order)
  }

  // ----- lists -----

  lemma AppendPrefix(table: seq<PageId>, ids: seq<PageId>, n: nat)
    requires NoDup(table) && n <= |ids|
    ensures G.AppendAllNew(table, ids[..n]) <= G.AppendAllNew(table, ids)
  {
    assert ids == ids[..n] + ids[n..];
    G.AppendAllNewSplit(table, ids[..n], ids[n..]);
    G.AppendAllNewKeeps(table, ids[..n]);
    G.AppendAllNewKeeps(G.AppendAllNew(table, ids[..n]), ids[n..]);
  }

  /** One mount of a poll that fits keeps a table in the wanted order, and the poll's own part within it. */
  lemma MountFits(table: seq<PageId>, own: seq<PageId>, x: PageId, wanted: seq<PageId>)
    requires NoDup(wanted) && table <= wanted && own <= table && AppendNew(own, x) <= wanted
    ensures AppendNew(table, x) <= wanted && AppendNew(own, x) <= AppendNew(table, x)
  {
    if x !in own {
      assert wanted[|own|] == x;
      assert forall i :: 0 <= i < |table| ==> wanted[i] == table[i] && wanted[i] in table;
      if x in table {
        var i :| 0 <= i < |table| && table[i] == x;
        assert i == |own|;
      }
    }
  }

  // ----- if each poll fits -----

  /** How many pages the poll has mounted since `w0`. */
  function Came(w0: World, w: World, t: Thread): int
    requires t in w0.polls && t in w.polls
  {
    |w0.polls[t].rest| - |w.polls[t].rest|
  }

  /** What the poll has appended so far is in the table, and the rest of its pages is still to come. */
  ghost predicate Underway(w0: World, w: World, a: AgentId, p: string, t: Thread)
    requires t in w0.polls
  {
    && t in w.polls && w.polls[t].agent == a && w.polls[t].topic == p
    && var rest := w0.polls[t].rest;
       && 0 <= Came(w0, w, t) && w.polls[t].rest == rest[Came(w0, w, t)..]
       && G.AppendAllNew(Table(w0.system.store, a), rest[..Came(w0, w, t)]) <= Table(w.system.store, a)
  }

  ghost predicate Kept(w0: World, w: World, a: AgentId, p: string, order: seq<Thread>)
    requires Pending(w0, a, p, order)
  {
    Table(w.system.store, a) <= Wanted(w0, a, order) && forall t :: t in order ==> Underway(w0, w, a, p, t)
  }

  lemma OwnMountKept(c: Codec, w0: World, w: World, now: int, a: AgentId, p: string, order: seq<Thread>, t: Thread)
    requires Pending(w0, a, p, order) && EachFits(w0, a, p, order) && NoDup(Table(w0.system.store, a))
    requires Kept(w0, w, a, p, order) && AwaitedProtected(w, a, p) && t in order && Possible(w, PollMount(t))
    ensures var z := Advance(c, w, PollMount(t), now);
      Table(z.system.store, a) <= Wanted(w0, a, order) && Table(w.system.store, a) <= Table(z.system.store, a)
      && Underway(w0, z, a, p, t)
  {
    var rest, n, table := w0.polls[t].rest, Came(w0, w, t), Table(w0.system.store, a);
    assert Underway(w0, w, a, p, t);
    OwnMountAppends(c, w, t, now, a, p);
    AppendOneMore(table, rest, n);
    AppendPrefix(table, rest, n + 1);
    G.AppendAllNewKeeps(table, Rests(w0.polls, order));
    MountFits(Table(w.system.store, a), G.AppendAllNew(table, rest[..n]), rest[n], Wanted(w0, a, order));
    assert rest[n..][1..] == rest[n + 1..];
  }

  /** The other polls keep what they had when the table grows. */
  lemma StillUnderway(w0: World, w: World, z: World, a: AgentId, p: string, t: Thread)
    requires t in w0.polls && Underway(w0, w, a, p, t)
    requires t in z.polls && z.polls[t] == w.polls[t] && Table(w.system.store, a) <= Table(z.system.store, a)
    ensures Underway(w0, z, a, p, t)
  {
  }

  lemma OthersMoveKept(c: Codec, w: World, move: Move, now: int, a: AgentId, order: seq<Thread>)
    requires Counted(w.system) && Possible(w, move) && OnlyThese(w, move, a, order)
    requires !(move.PollMount? && move.thread in order)
    ensures var z := Advance(c, w, move, now);
      Table(z.system.store, a) == Table(w.system.store, a)
      && forall t :: t in order && t in w.polls ==> t in z.polls && z.polls[t] == w.polls[t]
  {
    match move
    case Cvm(step) => StepKeepsTable(c, w.system, step, now, a);
    case PollMount(r) => StepKeepsTable(c, w.system, MountOf(w.polls[r]), now, a);
    case _ =>
  }

  lemma MoveKept(c: Codec, w0: World, w: World, move: Move, now: int, a: AgentId, p: string, order: seq<Thread>)
    requires Pending(w0, a, p, order) && EachFits(w0, a, p, order) && NoDup(Table(w0.system.store, a))
    requires Kept(w0, w, a, p, order) && Subscribed(w, a, p) && Possible(w, move) && OnlyThese(w, move, a, order)
    ensures Kept(w0, Advance(c, w, move, now), a, p, order)
  {
    var z := Advance(c, w, move, now);
    if move.PollMount? && move.thread in order {
      OwnMountKept(c, w0, w, now, a, p, order, move.thread);
    } else {
      OthersMoveKept(c, w, move, now, a, order);
    }
    forall t | t in order
      ensures Underway(w0, z, a, p, t)
    {
      assert Underway(w0, w, a, p, t);
      if !(move.PollMount? && move.thread == t) { StillUnderway(w0, w, z, a, p, t); }
    }
  }

  lemma {:induction false} ScheduleKept(c: Codec, run: seq<World>, moves: seq<(Move, int)>, a: AgentId, p: string,
                                        order: seq<Thread>, k: nat)
    requires Schedule(c, run, moves, a, p, order) && k < |run| && Subscribed(run[0], a, p)
    requires Pending(run[0], a, p, order) && EachFits(run[0], a, p, order)
    ensures Subscribed(run[k], a, p) && Kept(run[0], run[k], a, p, order)
  {
    var table := Table(run[0].system.store, a);
    assert NoDup(table);
    G.AppendAllNewKeeps(table, Rests(run[0].polls, order));
    if k == 0 {
      forall t | t in order
        ensures Underway(run[0], run[0], a, p, t)
      {
        assert run[0].polls[t].rest[..0] == [];
      }
    } else {
      ScheduleKept(c, run, moves, a, p, order, k - 1);
      var w, move, now := run[k - 1], moves[k - 1].0, moves[k - 1].1;
      MoveKept(c, run[0], w, move, now, a, p, order);
      MoveKeepsBoards(c, w, move, now);
      MoveKeepsFollowed(c, w, move, now, a, p);
    }
  }

  // ----- only if each poll fits -----

  lemma ScheduleCons(c: Codec, w: World, move: Move, rest: seq<World>, moves: seq<(Move, int)>, a: AgentId, p: string,
                     order: seq<Thread>)
    requires Possible(w, move) && Retains(w, move, a, p) && OnlyThese(w, move, a, order)
    requires Schedule(c, rest, moves, a, p, order) && rest[0] == Advance(c, w, move, 0)
    ensures Schedule(c, [w] + rest, [(move, 0)] + moves, a, p, order)
  {
    var run', moves' := [w] + rest, [(move, 0)] + moves;
    forall i | 0 <= i < |moves'|
      ensures && Possible(run'[i], moves'[i].0) && Retains(run'[i], moves'[i].0, a, p) && OnlyThese(run'[i], moves'[i].0, a, order)
              && run'[i + 1] == Advance(c, run'[i], moves'[i].0, moves'[i].1)
    {
      if i > 0 { assert run'[i] == rest[i - 1] && run'[i + 1] == rest[i] && moves'[i] == moves[i - 1]; }
    }
  }

  /** A schedule in which one poll mounts all its pages and nothing else happens. */
  lemma {:induction false} DrainOne(c: Codec, w: World, a: AgentId, p: string, order: seq<Thread>, t: Thread)
    returns (run: seq<World>, moves: seq<(Move, int)>)
    requires Subscribed(w, a, p) && t in order && t in w.polls && w.polls[t].agent == a && w.polls[t].topic == p
    ensures Schedule(c, run, moves, a, p, order) && run[0] == w
    ensures Table(run[|moves|].system.store, a) == G.AppendAllNew(Table(w.system.store, a), w.polls[t].rest)
    decreases |w.polls[t].rest|
  {
    if w.polls[t].rest == [] {
      run, moves := [w], [];
    } else {
      var move := PollMount(t);
      var z := Advance(c, w, move, 0);
      OwnMountAppends(c, w, t, 0, a, p);
      MoveKeepsBoards(c, w, move, 0);
      MoveKeepsFollowed(c, w, move, 0, a, p);
      run, moves := DrainOne(c, z, a, p, order, t);
      ScheduleCons(c, w, move, run, moves, a, p, order);
      run, moves := [w] + run, [(move, 0)] + moves;
    }
  }

  /**
   * However the mounts of a subscriber's pending polls are scheduled, and whatever others do in between, its table
   * keeps to log order if and only if each poll alone would append only the beginning of what all append together.
   */
  lemma SchedulesKeepOrderIff(c: Codec, w: World, a: AgentId, p: string, order: seq<Thread>)
    requires Subscribed(w, a, p) && Pending(w, a, p, order)
    ensures AlwaysInOrder(c, w, a, p, order) <==> EachFits(w, a, p, order)
  {
    if EachFits(w, a, p, order) {
      forall run: seq<World>, moves: seq<(Move, int)> | Schedule(c, run, moves, a, p, order) && run[0] == w
        ensures InOrderThroughout(run, a, Wanted(w, a, order))
      {
        forall k | 0 <= k < |run|
          ensures Table(run[k].system.store, a) <= Wanted(w, a, order)
        {
          ScheduleKept(c, run, moves, a, p, order, k);
        }
      }
    }
    if AlwaysInOrder(c, w, a, p, order) {
      forall t | t in order
        ensures G.AppendAllNew(Table(w.system.store, a), w.polls[t].rest) <= Wanted(w, a, order)
      {
        var run, moves := DrainOne(c, w, a, p, order, t);
        assert InOrderThroughout(run, a, Wanted(w, a, order));
      }
    }
  }
}
