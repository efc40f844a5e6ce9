/** The order in which polled pages are mounted, and runs in which order or delivery is lost. */
module ExchangeOrder {
  import opened Prelude
  import opened CvmModel
  import opened CvmIndex
  import opened CvmBytes
  import opened CvmLedger
  import opened Exchange
  import G = GatewayModel
  import Bb = Blackboard

  /** The page ids of a topic, in log order. */
  function Ids(board: Bb.Board, p: string): seq<PageId> {
    Bb.PageIds(Bb.Log(board, p))
  }

  /** The agent's table is filled only by polls of this topic, one after the other. */
  ghost predicate PollsInTurn(w: World, move: Move, a: AgentId, p: string) {
    match move
    case Cvm(Do(Mount(b, _))) => b != a
    case Cvm(DraftMount(t)) => t in w.system.drafts ==> w.system.drafts[t].agent != a
    case PollBegin(_, b, q) => b == a ==> q == p && PollsDone(w, a, p)
    case _ => true
  }

  /** A step by others leaves the agent's table alone. */
  lemma StepKeepsTable(c: Codec, y: System, step: Step, now: int, a: AgentId)
    requires Counted(y) && Balanced(y, step)
    requires step.Do? && step.call.Mount? ==> step.call.agent != a
    requires step.Do? && step.call.Release? ==> step.call.agent != a || a == ""
    requires step.DraftMount? ==> y.drafts[step.thread].agent != a
    ensures Table(Next(c, y, step, now).store, a) == Table(y.store, a)
  {
    match step
    case Do(call) => CallKeepsTable(c, y, call, now, a);
    case _ =>
  }

  lemma CallKeepsTable(c: Codec, y: System, call: Call, now: int, a: AgentId)
    requires Counted(y) && Enabled(y.store, call)
    requires call.Mount? ==> call.agent != a
    requires call.Release? ==> call.agent != a || a == ""
    ensures Table(Apply(c, y.store, call, now), a) == Table(y.store, a)
  {
    match call
    case Materialize(b) => ReadsOnlyCountUse(c, y.store, Table(y.store, b), now);
    case Evict(max, order) => EvictionSparesTables(y, order, max);
    case _ =>
  }

  // ----- one poll -----

  /** Nothing but poll `t` changes the agent's table: no other mount, delta or release of its own. */
  ghost predicate NoOtherMount(w: World, move: Move, a: AgentId, t: Thread) {
    match move
    case Cvm(Do(Mount(b, _))) => b != a
    case Cvm(Do(Release(b, _))) => b != a || a == ""
    case Cvm(DraftMount(r)) => r in w.system.drafts ==> w.system.drafts[r].agent != a
    case PollMount(r) => r != t && r in w.polls ==> w.polls[r].agent != a
    case _ => true
  }

  /** The page ids a poll is handed. */
  function Handed(board: Bb.Board, a: AgentId, p: string): seq<PageId> {
    Ids(board, p)[Bb.Start(board, p, a)..]
  }

  lemma HandedIsDelivered(board: Bb.Board, a: AgentId, p: string)
    ensures Bb.PageIds(Bb.PollStep(board, p, a).1) == Handed(board, a, p)
  {
  }

  /** Moves of others leave both the table and the poll alone. */
  lemma OthersKeepPoll(c: Codec, w: World, move: Move, now: int, a: AgentId, t: Thread)
    requires Counted(w.system) && Possible(w, move) && NoOtherMount(w, move, a, t) && move != PollMount(t)
    requires t in w.polls
    ensures var z := Advance(c, w, move, now);
      Table(z.system.store, a) == Table(w.system.store, a) && t in z.polls && z.polls[t] == w.polls[t]
  {
    match move
    case Cvm(step) => StepKeepsTable(c, w.system, step, now, a);
    case PollMount(r) => StepKeepsTable(c, w.system, MountOf(w.polls[r]), now, a);
    case _ =>
  }

  lemma AppendOneMore(table: seq<PageId>, ids: seq<PageId>, m: nat)
    requires m < |ids|
    ensures G.AppendAllNew(table, ids[..m + 1]) == AppendNew(G.AppendAllNew(table, ids[..m]), ids[m])
  {
    assert ids[..m + 1] == ids[..m] + [ids[m]];
    G.AppendAllNewSplit(table, ids[..m], [ids[m]]);
  }

  /** The poll's own mount appends its next page if that is new. */
  lemma OwnMountAppends(c: Codec, w: World, t: Thread, now: int, a: AgentId, p: string)
    requires AwaitedProtected(w, a, p) && Possible(w, PollMount(t)) && w.polls[t].agent == a && w.polls[t].topic == p
    ensures var z := Advance(c, w, PollMount(t), now);
      && Table(z.system.store, a) == AppendNew(Table(w.system.store, a), w.polls[t].rest[0])
      && z.polls == w.polls[t := Frame(a, p, w.polls[t].rest[1..])]
  {
    OwnMountSucceeds(w, t, now, a, p);
  }

  /**
   * In every retained run, whatever the agent's table held when a poll began and however others interleave, the poll
   * appends the new ones of its pages in log order, as far as it has come, while the agent mounts nothing else.
   */
  lemma {:induction false} PollAppendsInOrder(c: Codec, run: seq<World>, moves: seq<(Move, int)>, a: AgentId, p: string,
                                              i: nat, k: nat, t: Thread) returns (m: nat)
    requires ExchangeRun(c, run, moves, a, p) && i < k < |run| && moves[i].0 == PollBegin(t, a, p)
    requires forall j :: i < j < k ==> NoOtherMount(run[j], moves[j].0, a, t)
    ensures var ids := Handed(run[i].board, a, p);
      && m <= |ids| && t in run[k].polls && run[k].polls[t] == Frame(a, p, ids[m..])
      && Table(run[k].system.store, a) == G.AppendAllNew(Table(run[i].system.store, a), ids[..m])
    decreases k
  {
    var ids, before := Handed(run[i].board, a, p), Table(run[i].system.store, a);
    if k == i + 1 {
      m := 0;
      HandedIsDelivered(run[i].board, a, p);
      assert ids[0..] == ids;
    } else {
      m := PollAppendsInOrder(c, run, moves, a, p, i, k - 1, t);
      SubscribedInEveryRun(c, run, moves, a, p, k - 1);
      m := PollGoesOn(c, run[k - 1], moves[k - 1].0, moves[k - 1].1, a, p, t, before, ids, m);
    }
  }

  /** One move of the run takes the poll on by at most one page. */
  lemma PollGoesOn(c: Codec, w: World, move: Move, now: int, a: AgentId, p: string, t: Thread, before: seq<PageId>,
                   ids: seq<PageId>, m: nat) returns (n: nat)
    requires Subscribed(w, a, p) && Possible(w, move) && NoOtherMount(w, move, a, t)
    requires m <= |ids| && t in w.polls && w.polls[t] == Frame(a, p, ids[m..])
    requires Table(w.system.store, a) == G.AppendAllNew(before, ids[..m])
    ensures var z := Advance(c, w, move, now);
      && n <= |ids| && t in z.polls && z.polls[t] == Frame(a, p, ids[n..])
      && Table(z.system.store, a) == G.AppendAllNew(before, ids[..n])
  {
    n := m;
    if move == PollMount(t) {
      OwnMountAppends(c, w, t, now, a, p);
      AppendOneMore(before, ids, m);
      assert ids[m..][1..] == ids[m + 1..];
      n := m + 1;
    } else {
      OthersKeepPoll(c, w, move, now, a, t);
    }
  }

  // ----- an agent that only polls one topic -----

  /** A retained run in which the agent polls this topic only, one poll at a time. */
  ghost predicate RunInTurn(c: Codec, run: seq<World>, moves: seq<(Move, int)>, a: AgentId, p: string) {
    && ExchangeRun(c, run, moves, a, p)
    && forall i :: 0 <= i < |moves| ==> PollsInTurn(run[i], moves[i].0, a, p)
  }

  /** The agent has not polled yet. */
  ghost predicate NotBegun(w: World, a: AgentId, p: string) {
    && Table(w.system.store, a) == [] && Bb.Offset(w.board, p, a) == 0
    && forall u :: u in w.polls ==> w.polls[u].agent != a
  }

  /** The agent's last poll began at move `i`, when the table was the log up to the offset. */
  ghost predicate InTurn(run: seq<World>, moves: seq<(Move, int)>, a: AgentId, p: string, k: nat, i: nat, t: Thread)
    requires k < |run| && |run| == |moves| + 1
  {
    && i < k && moves[i].0 == PollBegin(t, a, p)
    && (forall j :: i < j < k ==> NoOtherMount(run[j], moves[j].0, a, t))
    && (forall u :: u in run[k].polls && run[k].polls[u].agent == a && u != t ==> run[k].polls[u].rest == [])
    && var ids, offset := Ids(run[i].board, p), Bb.Offset(run[i].board, p, a);
       && offset <= |ids| && Table(run[i].system.store, a) == G.AppendAllNew([], ids[..offset])
       && ids <= Ids(run[k].board, p) && Bb.Offset(run[k].board, p, a) == |ids|
  }

  /** What the table is while the last poll is under way, and after it. */
  lemma TableInTurn(c: Codec, run: seq<World>, moves: seq<(Move, int)>, a: AgentId, p: string, k: nat, i: nat, t: Thread)
    returns (m: nat)
    requires RunInTurn(c, run, moves, a, p) && k < |run| && InTurn(run, moves, a, p, k, i, t)
    ensures m <= Bb.Offset(run[k].board, p, a) <= |Ids(run[k].board, p)|
    ensures Table(run[k].system.store, a) == G.AppendAllNew([], Ids(run[k].board, p)[..m])
    ensures t in run[k].polls && run[k].polls[t].agent == a && run[k].polls[t].topic == p
    ensures run[k].polls[t].rest == Ids(run[k].board, p)[m..Bb.Offset(run[k].board, p, a)]
  {
    var n := PollAppendsInOrder(c, run, moves, a, p, i, k, t);
    var ids, offset := Ids(run[i].board, p), Bb.Offset(run[i].board, p, a);
    m := offset + n;
    HandedFromOffset(run[i].board, a, p);
    OffsetThenHanded(ids, Ids(run[k].board, p), offset, n);
  }

  lemma HandedFromOffset(b: Bb.Board, a: AgentId, p: string)
    requires Bb.Offset(b, p, a) <= |Ids(b, p)|
    ensures Handed(b, a, p) == Ids(b, p)[Bb.Offset(b, p, a)..]
  {
  }

  lemma OffsetThenHanded(ids: seq<PageId>, longer: seq<PageId>, offset: nat, n: nat)
    requires offset + n <= |ids| && ids <= longer
    ensures G.AppendAllNew(G.AppendAllNew([], ids[..offset]), ids[offset..][..n]) == G.AppendAllNew([], longer[..offset + n])
    ensures ids[offset..][n..] == longer[offset + n..|ids|]
  {
    G.AppendAllNewSplit([], ids[..offset], ids[offset..][..n]);
    assert ids == longer[..|ids|];
    assert ids[offset..][..n] == ids[offset..offset + n];
    assert ids[..offset] + ids[offset..offset + n] == ids[..offset + n] == longer[..offset + n];
    assert ids[offset..][n..] == ids[offset + n..] == longer[offset + n..|ids|];
  }

  /** The agent holds only pages of the log, so none that it may release. */
  lemma NothingToRelease(ids: seq<PageId>, m: nat, id: PageId)
    requires m <= |ids| && id in G.AppendAllNew([], ids[..m])
    ensures id in ids
  {
    G.AppendAllNewKeeps([], ids[..m]);
  }

  lemma BoardGrows(c: Codec, w: World, move: Move, now: int, a: AgentId, p: string)
    requires Possible(w, move) && !(move.PollBegin? && move.agent == a && move.topic == p)
    ensures var z := Advance(c, w, move, now);
      Ids(w.board, p) <= Ids(z.board, p) && Bb.Offset(z.board, p, a) == Bb.Offset(w.board, p, a)
  {
    if move.PollBegin? { Bb.SubscribersIndependent(w.board, Bb.Poll(move.topic, move.agent), p, a); }
  }

  /** Until the agent's first poll nothing is mounted. */
  lemma NotBegunStep(c: Codec, w: World, move: Move, now: int, a: AgentId, p: string)
    requires NotBegun(w, a, p) && Counted(w.system) && Possible(w, move) && PollsInTurn(w, move, a, p)
    requires !(move.PollBegin? && move.agent == a)
    ensures NotBegun(Advance(c, w, move, now), a, p)
  {
    BoardGrows(c, w, move, now, a, p);
    match move
    case Cvm(step) => StepKeepsTable(c, w.system, step, now, a);
    case PollMount(r) => StepKeepsTable(c, w.system, MountOf(w.polls[r]), now, a);
    case _ =>
  }

  /** A poll that begins when all before it are done. */
  lemma BeginTurn(c: Codec, run: seq<World>, moves: seq<(Move, int)>, a: AgentId, p: string, i: nat, t: Thread)
    requires RunInTurn(c, run, moves, a, p) && i < |moves| && moves[i].0 == PollBegin(t, a, p)
    requires forall u :: u in run[i].polls && run[i].polls[u].agent == a ==> run[i].polls[u].rest == []
    requires Bb.Offset(run[i].board, p, a) <= |Ids(run[i].board, p)|
    requires Table(run[i].system.store, a) == G.AppendAllNew([], Ids(run[i].board, p)[..Bb.Offset(run[i].board, p, a)])
    ensures InTurn(run, moves, a, p, i + 1, i, t)
  {
    assert Ids(run[i + 1].board, p) == Ids(run[i].board, p);
  }

  lemma NoOtherInTurn(w: World, move: Move, a: AgentId, p: string, t: Thread, m: nat)
    requires Possible(w, move) && Retains(w, move, a, p) && PollsInTurn(w, move, a, p)
    requires forall u :: u in w.polls && w.polls[u].agent == a && u != t ==> w.polls[u].rest == []
    requires m <= |Ids(w.board, p)| && Table(w.system.store, a) == G.AppendAllNew([], Ids(w.board, p)[..m])
    ensures NoOtherMount(w, move, a, t)
  {
    if move.Cvm? && move.step.Do? && move.step.call.Release? && move.step.call.agent == a != "" {
      NothingToRelease(Ids(w.board, p), m, move.step.call.id);
    }
  }

  lemma FramesInTurn(c: Codec, w: World, move: Move, now: int, a: AgentId, t: Thread)
    requires Possible(w, move) && NoOtherMount(w, move, a, t) && !(move.PollBegin? && move.agent == a)
    requires forall u :: u in w.polls && w.polls[u].agent == a && u != t ==> w.polls[u].rest == []
    ensures var z := Advance(c, w, move, now);
      forall u :: u in z.polls && z.polls[u].agent == a && u != t ==> z.polls[u].rest == []
  {
  }

  lemma TurnIsQuiet(c: Codec, run: seq<World>, moves: seq<(Move, int)>, a: AgentId, p: string, k: nat, i: nat, t: Thread)
    requires RunInTurn(c, run, moves, a, p) && k < |moves| && InTurn(run, moves, a, p, k, i, t)
    ensures NoOtherMount(run[k], moves[k].0, a, t)
  {
    var m := TableInTurn(c, run, moves, a, p, k, i, t);
    NoOtherInTurn(run[k], moves[k].0, a, p, t, m);
  }

  /** A turn goes on until the agent's next poll. */
  lemma TurnContinues(c: Codec, run: seq<World>, moves: seq<(Move, int)>, a: AgentId, p: string, k: nat, i: nat, t: Thread)
    requires RunInTurn(c, run, moves, a, p) && k < |moves| && InTurn(run, moves, a, p, k, i, t)
    requires !(moves[k].0.PollBegin? && moves[k].0.agent == a)
    ensures InTurn(run, moves, a, p, k + 1, i, t)
  {
    TurnIsQuiet(c, run, moves, a, p, k, i, t);
    FramesInTurn(c, run[k], moves[k].0, moves[k].1, a, t);
    BoardGrows(c, run[k], moves[k].0, moves[k].1, a, p);
  }

  /** The next poll begins when the turn is over. */
  lemma TurnPasses(c: Codec, run: seq<World>, moves: seq<(Move, int)>, a: AgentId, p: string, k: nat, i: nat, t: Thread)
    requires RunInTurn(c, run, moves, a, p) && k < |moves| && InTurn(run, moves, a, p, k, i, t)
    requires moves[k].0.PollBegin? && moves[k].0.agent == a
    ensures InTurn(run, moves, a, p, k + 1, k, moves[k].0.thread)
  {
    var m := TableInTurn(c, run, moves, a, p, k, i, t);
    assert PollsInTurn(run[k], moves[k].0, a, p);
    assert run[k].polls[t].rest == [];
    BeginTurn(c, run, moves, a, p, k, moves[k].0.thread);
  }

  lemma FirstTurn(c: Codec, run: seq<World>, moves: seq<(Move, int)>, a: AgentId, p: string, k: nat)
    requires RunInTurn(c, run, moves, a, p) && k < |moves| && NotBegun(run[k], a, p)
    requires moves[k].0.PollBegin? && moves[k].0.agent == a
    ensures InTurn(run, moves, a, p, k + 1, k, moves[k].0.thread)
  {
    assert PollsInTurn(run[k], moves[k].0, a, p);
    assert Ids(run[k].board, p)[..0] == [];
    BeginTurn(c, run, moves, a, p, k, moves[k].0.thread);
  }

  /** The agent has not polled by move `k`, or is in the turn of the poll begun at move `i`. */
  ghost predicate TurnAt(run: seq<World>, moves: seq<(Move, int)>, a: AgentId, p: string, k: nat, turn: Option<(nat, Thread)>)
    requires k < |run| && |run| == |moves| + 1
  {
    match turn
    case None => NotBegun(run[k], a, p)
    case Some((i, t)) => InTurn(run, moves, a, p, k, i, t)
  }

  lemma NextTurn(c: Codec, run: seq<World>, moves: seq<(Move, int)>, a: AgentId, p: string, k: nat,
                 turn: Option<(nat, Thread)>) returns (next: Option<(nat, Thread)>)
    requires RunInTurn(c, run, moves, a, p) && k < |moves| && TurnAt(run, moves, a, p, k, turn)
    ensures TurnAt(run, moves, a, p, k + 1, next)
  {
    next := turn;
    if moves[k].0.PollBegin? && moves[k].0.agent == a {
      if turn.Some? {
        TurnPasses(c, run, moves, a, p, k, turn.value.0, turn.value.1);
      } else {
        FirstTurn(c, run, moves, a, p, k);
      }
      next := Some((k, moves[k].0.thread));
    } else if turn.Some? {
      TurnContinues(c, run, moves, a, p, k, turn.value.0, turn.value.1);
    } else {
      SubscribedInEveryRun(c, run, moves, a, p, k);
      NotBegunStep(c, run[k], moves[k].0, moves[k].1, a, p);
    }
  }

  lemma {:induction false} TurnsInEveryRun(c: Codec, run: seq<World>, moves: seq<(Move, int)>, a: AgentId, p: string, k: nat)
    returns (turn: Option<(nat, Thread)>)
    requires RunInTurn(c, run, moves, a, p) && k < |run|
    ensures TurnAt(run, moves, a, p, k, turn)
  {
    turn := None;
    if k > 0 {
      turn := TurnsInEveryRun(c, run, moves, a, p, k - 1);
      turn := NextTurn(c, run, moves, a, p, k - 1, turn);
    }
  }

  /** In every such run, at every moment, the agent's table is the mounted prefix of the log, in log order. */
  lemma OrderInEveryRun(c: Codec, run: seq<World>, moves: seq<(Move, int)>, a: AgentId, p: string, k: nat)
    returns (m: nat)
    requires RunInTurn(c, run, moves, a, p) && k < |run|
    ensures m <= Bb.Offset(run[k].board, p, a) <= |Ids(run[k].board, p)|
    ensures Table(run[k].system.store, a) == G.AppendAllNew([], Ids(run[k].board, p)[..m])
    ensures PollsDone(run[k], a, p) ==> m == Bb.Offset(run[k].board, p, a)
  {
    var turn := TurnsInEveryRun(c, run, moves, a, p, k);
    m := 0;
    if turn.Some? { m := TableInTurn(c, run, moves, a, p, k, turn.value.0, turn.value.1); }
  }

  /** Between its polls the table is exactly the log up to the offset, each page once, in order of first appearance. */
  lemma PolledInLogOrder(c: Codec, run: seq<World>, moves: seq<(Move, int)>, a: AgentId, p: string, k: nat)
    requires RunInTurn(c, run, moves, a, p) && k < |run| && PollsDone(run[k], a, p)
    ensures Bb.Offset(run[k].board, p, a) <= |Ids(run[k].board, p)|
    ensures Table(run[k].system.store, a) == G.AppendAllNew([], Ids(run[k].board, p)[..Bb.Offset(run[k].board, p, a)])
  {
    var m := OrderInEveryRun(c, run, moves, a, p, k);
  }

  // ----- runs in which a promise fails -----

  lemma Extend(c: Codec, run: seq<World>, moves: seq<(Move, int)>, move: Move)
    requires WorldRun(c, run, moves) && Possible(run[|moves|], move)
    ensures WorldRun(c, run + [Advance(c, run[|moves|], move, 0)], moves + [(move, 0)])
    ensures (run + [Advance(c, run[|moves|], move, 0)])[|moves| + 1] == Advance(c, run[|moves|], move, 0)
  {
    var run', moves' := run + [Advance(c, run[|moves|], move, 0)], moves + [(move, 0)];
    forall i | 0 <= i < |moves'|
      ensures Possible(run'[i], moves'[i].0) && run'[i + 1] == Advance(c, run'[i], moves'[i].0, moves'[i].1)
    {
      if i < |moves| { assert run'[i] == run[i] && run'[i + 1] == run[i + 1] && moves'[i] == moves[i]; }
    }
  }

  function Message(a: AgentId, p: string, id: PageId): Bb.Message {
    Bb.Message(p, a, id, 0, "page-reference")
  }

  /** A run that makes these moves, at time zero. */
  ghost predicate Makes(c: Codec, run: seq<World>, moves: seq<Move>) {
    WorldRun(c, run, Timed(moves))
  }

  function Timed(moves: seq<Move>): seq<(Move, int)> {
    seq(|moves|, i requires 0 <= i < |moves| => (moves[i], 0))
  }

  lemma MakeOne(c: Codec, run: seq<World>, moves: seq<Move>, move: Move) returns (run': seq<World>)
    requires Makes(c, run, moves) && Possible(run[|moves|], move)
    ensures Makes(c, run', moves + [move])
    ensures run' == run + [Advance(c, run[|moves|], move, 0)] && run'[|moves| + 1] == Advance(c, run[|moves|], move, 0)
  {
    Extend(c, run, Timed(moves), move);
    assert Timed(moves + [move]) == Timed(moves) + [(move, 0)];
    run' := run + [Advance(c, run[|moves|], move, 0)];
  }

  /** One page created and published; its only handle given back; evicted; then polled. */
  function ForgottenMoves(c: Codec, u: Bytes, budget: nat, a: AgentId, p: string): seq<Move> {
    var x := c.hash(u);
    [Cvm(Do(Create("file", u))), Publish(Message(a, p, x)), Cvm(Do(Release("", x))), Cvm(Do(Evict(budget, [x]))), PollBegin(0, a, p)]
  }

  /** The store holds one page and one handle on it. */
  ghost predicate Single(c: Codec, w: World, u: Bytes) {
    var x := c.hash(u);
    && w.system.store.pages == map[x := NewPage(c, "file", u, 0)] && w.system.store.tables == map[]
    && w.system.handles == multiset{x} && w.system.drafts == map[] && w.polls == map[]
  }

  lemma CreateSingle(c: Codec, u: Bytes)
    ensures var w := Advance(c, EMPTY_WORLD, Cvm(Do(Create("file", u))), 0); Single(c, w, u) && w.board == Bb.EMPTY_BOARD
  {
  }

  /** The store holds one page that nothing holds on to. */
  ghost predicate Idle(c: Codec, w: World, u: Bytes) {
    var x := c.hash(u);
    w.system.store.pages == map[x := ReleasedPage(NewPage(c, "file", u, 0), "", 0)] && w.polls == map[]
  }

  lemma ReleaseSingle(c: Codec, w: World, u: Bytes)
    requires Single(c, w, u)
    ensures var move := Cvm(Do(Release("", c.hash(u))));
      Possible(w, move) && Idle(c, Advance(c, w, move, 0), u) && Advance(c, w, move, 0).board == w.board
  {
  }

  lemma IdleOrder(c: Codec, w: World, u: Bytes)
    requires Idle(c, w, u)
    ensures EvictionOrder(w.system.store, [c.hash(u)])
  {
  }

  lemma EvictIdle(c: Codec, w: World, u: Bytes, budget: nat)
    requires Idle(c, w, u) && budget < |u|
    ensures var move := Cvm(Do(Evict(budget, [c.hash(u)])));
      && Possible(w, move)
      && var w' := Advance(c, w, move, 0);
      w'.system.store.pages == map[] && w'.board == w.board && w'.polls == map[]
  {
    var x, s := c.hash(u), w.system.store;
    IdleOrder(c, w, u);
    TotalUpdate(map[], x, s.pages[x]);
    assert map[][x := s.pages[x]] == s.pages;
    assert TotalResident(s.pages) == |u|;
    var s1 := s.(pages := s.pages - {x}, tables := Scrub(s.tables, x));
    assert [x][1..] == [];
    assert EvictFrom(s, [x], budget).0 == EvictFrom(s1, [], budget).0 == s1;
    assert s1.pages == map[];
  }

  /** Publishing takes no reference: in this run the poll's first mount finds its page gone. */
  lemma ForgottenPageFailsPoll(c: Codec, u: Bytes, budget: nat, a: AgentId, p: string) returns (run: seq<World>)
    requires budget < |u|
    ensures Makes(c, run, ForgottenMoves(c, u, budget, a, p))
    ensures 0 in run[5].polls && run[5].polls[0] == Frame(a, p, [c.hash(u)])
    ensures MountStep(run[5].system.store, a, c.hash(u), 0).1 == Err(UnknownPage)
  {
    var ms := ForgottenMoves(c, u, budget, a, p);
    run := PublishedOnce(c, u, budget, a, p);
    var done := [ms[0], ms[1]];
    ReleaseSingle(c, run[2], u);
    run := MakeOne(c, run, done, ms[2]);
    EvictIdle(c, run[3], u, budget);
    run := MakeOne(c, run, done + [ms[2]], ms[3]);
    PollOne(c, run[4], 0, [], c.hash(u), a, p);
    run := MakeOne(c, run, done + [ms[2]] + [ms[3]], ms[4]);
    assert ms == done + [ms[2]] + [ms[3]] + [ms[4]];
  }

  lemma PublishedOnce(c: Codec, u: Bytes, budget: nat, a: AgentId, p: string) returns (run: seq<World>)
    ensures Makes(c, run, [ForgottenMoves(c, u, budget, a, p)[0], ForgottenMoves(c, u, budget, a, p)[1]]) && |run| == 3
    ensures Single(c, run[2], u) && Ids(run[2].board, p) == [] + [c.hash(u)] && Bb.Offset(run[2].board, p, a) == 0
  {
    var first, second := ForgottenMoves(c, u, budget, a, p)[0], ForgottenMoves(c, u, budget, a, p)[1];
    run := [EMPTY_WORLD];
    CreateSingle(c, u);
    run := MakeOne(c, run, [], first);
    PublishOne(c, run[1], c.hash(u), a, p);
    run := MakeOne(c, run, [] + [first], second);
    assert [] + [first] + [second] == [first, second];
  }

  // ----- two polls at once -----

  lemma KeepOne(c: Codec, run: seq<World>, moves: seq<Move>, move: Move, a: AgentId, p: string) returns (run': seq<World>)
    requires ExchangeRun(c, run, Timed(moves), a, p) && Possible(run[|moves|], move) && Retains(run[|moves|], move, a, p)
    ensures ExchangeRun(c, run', Timed(moves + [move]), a, p)
    ensures run' == run + [Advance(c, run[|moves|], move, 0)] && run'[|moves| + 1] == Advance(c, run[|moves|], move, 0)
  {
    run' := MakeOne(c, run, moves, move);
    forall i | 0 <= i < |moves| + 1
      ensures Retains(run'[i], Timed(moves + [move])[i].0, a, p)
    {
      if i < |moves| { assert run'[i] == run[i] && Timed(moves + [move])[i] == Timed(moves)[i]; }
    }
  }

  /** Two pages, the second published between two polls of one subscriber, whose mounts come in the other order. */
  function OverlapMoves(c: Codec, u: Bytes, v: Bytes, a: AgentId, p: string): seq<Move> {
    [Cvm(Do(Create("file", u))), Cvm(Do(Create("file", v))),
     Publish(Message(a, p, c.hash(u))), PollBegin(0, a, p), Publish(Message(a, p, c.hash(v))), PollBegin(1, a, p),
     PollMount(1), PollMount(0)]
  }

  /** Both pages are held, and no table lists anything. */
  ghost predicate Stocked(w: World, x: PageId, y: PageId) {
    w.system.store.tables == map[] && Protected(w.system, x) && Protected(w.system, y)
  }

  lemma CreateBoth(c: Codec, u: Bytes, v: Bytes)
    ensures var w1 := Advance(c, EMPTY_WORLD, Cvm(Do(Create("file", u))), 0);
      var w2 := Advance(c, w1, Cvm(Do(Create("file", v))), 0);
      Stocked(w2, c.hash(u), c.hash(v)) && w2.board == Bb.EMPTY_BOARD && w2.polls == map[]
  {
  }

  /** The subscriber has been handed everything published so far. */
  ghost predicate UpToDate(w: World, a: AgentId, p: string) {
    Bb.Offset(w.board, p, a) == |Ids(w.board, p)|
  }

  /** A page published to an up-to-date subscriber, then a poll: it is handed that page. */
  lemma PublishAndPoll(c: Codec, run: seq<World>, moves: seq<Move>, t: Thread, x: PageId, a: AgentId, p: string)
    returns (run': seq<World>)
    requires ExchangeRun(c, run, Timed(moves), a, p)
    requires var w := run[|moves|]; UpToDate(w, a, p) && t !in w.polls && Protected(w.system, x)
    ensures ExchangeRun(c, run', Timed(moves + [Publish(Message(a, p, x)), PollBegin(t, a, p)]), a, p)
    ensures |run'| == |moves| + 3
    ensures var w, w' := run[|moves|], run'[|moves| + 2];
      && w'.system == w.system && UpToDate(w', a, p) && Ids(w'.board, p) == Ids(w.board, p) + [x]
      && w'.polls == w.polls[t := Frame(a, p, [x])]
  {
    var first, second := Publish(Message(a, p, x)), PollBegin(t, a, p);
    run' := KeepOne(c, run, moves, first, a, p);
    PublishOne(c, run[|moves|], x, a, p);
    PollOne(c, run'[|moves| + 1], t, Ids(run[|moves|].board, p), x, a, p);
    run' := KeepOne(c, run', moves + [first], second, a, p);
    assert moves + [first] + [second] == moves + [first, second];
  }

  lemma PublishOne(c: Codec, w: World, x: PageId, a: AgentId, p: string)
    requires UpToDate(w, a, p)
    ensures var w' := Advance(c, w, Publish(Message(a, p, x)), 0);
      && w'.system == w.system && w'.polls == w.polls && Ids(w'.board, p) == Ids(w.board, p) + [x]
      && Bb.Offset(w'.board, p, a) == |Ids(w.board, p)|
  {
  }

  lemma PollOne(c: Codec, w: World, t: Thread, ids: seq<PageId>, x: PageId, a: AgentId, p: string)
    requires Ids(w.board, p) == ids + [x] && Bb.Offset(w.board, p, a) == |ids| && t !in w.polls
    ensures var w' := Advance(c, w, PollBegin(t, a, p), 0);
      && w'.system == w.system && UpToDate(w', a, p) && Ids(w'.board, p) == ids + [x]
      && w'.polls == w.polls[t := Frame(a, p, [x])]
  {
    var delivered := Bb.PollStep(w.board, p, a).1;
    assert Bb.PageIds(delivered) == Ids(w.board, p)[|ids|..] == [x];
  }

  lemma MountBoth(c: Codec, w: World, x: PageId, y: PageId, a: AgentId, p: string)
    requires Stocked(w, x, y) && x != y && w.polls == map[0 := Frame(a, p, [x]), 1 := Frame(a, p, [y])]
    ensures Possible(w, PollMount(1))
      && var w7 := Advance(c, w, PollMount(1), 0);
      && Possible(w7, PollMount(0))
      && var w8 := Advance(c, w7, PollMount(0), 0);
      Table(w8.system.store, a) == [y, x] && w8.board == w.board && PollsDone(w8, a, p)
  {
  }

  /** Every promise of retention kept, two polls at once still leave the table out of log order. */
  lemma OverlappingPollsReorder(c: Codec, u: Bytes, v: Bytes, a: AgentId, p: string) returns (run: seq<World>)
    requires c.hash(u) != c.hash(v)
    ensures ExchangeRun(c, run, Timed(OverlapMoves(c, u, v, a, p)), a, p)
    ensures PollsDone(run[8], a, p) && Bb.Offset(run[8].board, p, a) == 2
    ensures Ids(run[8].board, p) == [c.hash(u), c.hash(v)]
    ensures Table(run[8].system.store, a) == [c.hash(v), c.hash(u)]
  {
    var x, y := c.hash(u), c.hash(v);
    run := BothCreated(c, u, v, a, p);
    var done := [Cvm(Do(Create("file", u))), Cvm(Do(Create("file", v)))];
    run := PublishAndPoll(c, run, done, 0, x, a, p);
    done := done + [Publish(Message(a, p, x)), PollBegin(0, a, p)];
    run := PublishAndPoll(c, run, done, 1, y, a, p);
    done := done + [Publish(Message(a, p, y)), PollBegin(1, a, p)];
    run := BothMounted(c, run, done, x, y, a, p);
    assert OverlapMoves(c, u, v, a, p) == done + [PollMount(1), PollMount(0)];
  }

  lemma BothCreated(c: Codec, u: Bytes, v: Bytes, a: AgentId, p: string) returns (run: seq<World>)
    ensures ExchangeRun(c, run, Timed([Cvm(Do(Create("file", u))), Cvm(Do(Create("file", v)))]), a, p) && |run| == 3
    ensures Stocked(run[2], c.hash(u), c.hash(v)) && UpToDate(run[2], a, p) && Ids(run[2].board, p) == []
    ensures run[2].polls == map[]
  {
    var first, second := Cvm(Do(Create("file", u))), Cvm(Do(Create("file", v)));
    run := [EMPTY_WORLD];
    CreateBoth(c, u, v);
    run := KeepOne(c, run, [], first, a, p);
    run := KeepOne(c, run, [] + [first], second, a, p);
    assert [] + [first] + [second] == [first, second];
  }

  lemma BothMounted(c: Codec, run: seq<World>, moves: seq<Move>, x: PageId, y: PageId, a: AgentId, p: string)
    returns (run': seq<World>)
    requires ExchangeRun(c, run, Timed(moves), a, p)
    requires var w := run[|moves|];
      Stocked(w, x, y) && x != y && w.polls == map[0 := Frame(a, p, [x]), 1 := Frame(a, p, [y])]
    ensures ExchangeRun(c, run', Timed(moves + [PollMount(1), PollMount(0)]), a, p) && |run'| == |moves| + 3
    ensures var w, w' := run[|moves|], run'[|moves| + 2];
      Table(w'.system.store, a) == [y, x] && w'.board == w.board && PollsDone(w', a, p)
  {
    MountBoth(c, run[|moves|], x, y, a, p);
    run' := KeepOne(c, run, moves, PollMount(1), a, p);
    run' := KeepOne(c, run', moves + [PollMount(1)], PollMount(0), a, p);
    assert moves + [PollMount(1)] + [PollMount(0)] == moves + [PollMount(1), PollMount(0)];
  }
}
