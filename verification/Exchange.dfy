/**
 * Page references handed over through the blackboard while other threads use the page store.
 * A poll advances its offset first and mounts the delivered pages one lock region at a time.
 */
module Exchange {
  import opened Prelude
  import opened CvmModel
  import opened CvmIndex
  import opened CvmBytes
  import opened CvmLedger
  import Bb = Blackboard

  /** A poll between the blackboard and its last mount. */
  datatype Frame = Frame(agent: AgentId, topic: string, rest: seq<PageId>)

  datatype World = World(system: System, board: Bb.Board, polls: map<Thread, Frame>)

  const EMPTY_WORLD := World(EMPTY_SYSTEM, Bb.EMPTY_BOARD, map[])

  datatype Move =
    | Cvm(step: Step)
    | Publish(message: Bb.Message)
    | PollBegin(thread: Thread, agent: AgentId, topic: string)
    | PollMount(thread: Thread)

  ghost predicate Possible(w: World, move: Move) {
    match move
    case Cvm(step) => Balanced(w.system, step)
    case Publish(_) => true
    case PollBegin(t, _, _) => t !in w.polls
    case PollMount(t) => t in w.polls && w.polls[t].rest != []
  }

  ghost predicate PageLive(y: System, id: PageId) {
    id in y.store.pages
  }

  /** The mount a frame does next. */
  function MountOf(f: Frame): Step
    requires f.rest != []
  {
    Do(Mount(f.agent, f.rest[0]))
  }

  /** A failed mount ends the poll; the rest of what was delivered stays unmounted. */
  ghost function Advance(c: Codec, w: World, move: Move, now: int): World
    requires Possible(w, move)
  {
    match move
    case Cvm(step) => w.(system := Next(c, w.system, step, now))
    case Publish(m) => w.(board := Bb.PublishStep(w.board, m))
    case PollBegin(t, a, p) =>
      var (board, delivered) := Bb.PollStep(w.board, p, a);
      w.(board := board, polls := w.polls[t := Frame(a, p, Bb.PageIds(delivered))])
    case PollMount(t) =>
      var f := w.polls[t];
      var rest := if PageLive(w.system, f.rest[0]) then f.rest[1..] else [];
      w.(system := Next(c, w.system, MountOf(f), now), polls := w.polls[t := f.(rest := rest)])
  }

  // ----- the retention discipline of one subscription -----

  /** A page that eviction may not take. */
  ghost predicate Protected(y: System, id: PageId) {
    id in y.store.pages && !Evictable(y.store.pages[id])
  }

  /** In the topic log at or after the subscriber's offset. */
  ghost predicate Unread(board: Bb.Board, a: AgentId, p: string, id: PageId) {
    exists i :: Bb.Offset(board, p, a) <= i < |Bb.Log(board, p)| && Bb.Log(board, p)[i].pageId == id
  }

  /** In the hands of a poll of this subscription. */
  ghost predicate InFlight(polls: map<Thread, Frame>, a: AgentId, p: string, id: PageId) {
    exists t :: t in polls && polls[t].agent == a && polls[t].topic == p && id in polls[t].rest
  }

  /** Pages published to subscriber `a` on `p` that it has not mounted yet. */
  ghost predicate Awaited(w: World, a: AgentId, p: string, id: PageId) {
    Unread(w.board, a, p, id) || InFlight(w.polls, a, p, id)
  }

  /**
   * Publishers publish protected pages; nobody gives up the last hold on an unpinned page still awaited;
   * the subscriber itself does not release pages of the topic.
   */
  ghost predicate Retains(w: World, move: Move, a: AgentId, p: string) {
    match move
    case Publish(m) => m.topic == p ==> Protected(w.system, m.pageId)
    case Cvm(Do(Release(b, id))) =>
      && (Awaited(w, a, p, id) && PageLive(w.system, id) ==>
            w.system.store.pages[id].pinned || w.system.store.pages[id].refCount > 1)
      && (b == a && a != "" ==> id !in Bb.PageIds(Bb.Log(w.board, p)))
    case _ => true
  }

  // ----- what survives a store step -----

  ghost predicate GivesUp(y: System, step: Step, id: PageId) {
    match step
    case Do(Release(_, x)) => x == id && PageLive(y, id) && !y.store.pages[id].pinned && y.store.pages[id].refCount <= 1
    case _ => false
  }

  /** Only giving up the last hold ends protection. */
  lemma StepKeepsProtection(c: Codec, y: System, step: Step, now: int, id: PageId)
    requires Balanced(y, step) && Protected(y, id) && !GivesUp(y, step, id)
    ensures Protected(Next(c, y, step, now), id)
  {
    match step
    case Do(call) =>
      match call {
        case Materialize(a) => ReadsOnlyCountUse(c, y.store, Table(y.store, a), now);
        case Evict(max, order) => EvictionTakesColdest(y.store, order, max);
        case _ =>
      }
    case _ =>
  }

  ghost predicate Unmounts(y: System, step: Step, a: AgentId, id: PageId) {
    match step
    case Do(Release(b, x)) => b == a && b != "" && x == id
    case _ => false
  }

  /** Only a release by the agent takes a page out of its table. */
  lemma StepKeepsMounted(c: Codec, y: System, step: Step, now: int, a: AgentId, id: PageId)
    requires Counted(y) && Balanced(y, step) && id in Table(y.store, a) && !Unmounts(y, step, a, id)
    ensures id in Table(Next(c, y, step, now).store, a)
  {
    match step
    case Do(call) => CallKeepsMounted(c, y, call, now, a, id);
    case _ =>
  }

  lemma CallKeepsMounted(c: Codec, y: System, call: Call, now: int, a: AgentId, id: PageId)
    requires Counted(y) && Enabled(y.store, call) && id in Table(y.store, a) && !Unmounts(y, Do(call), a, id)
    ensures id in Table(Apply(c, y.store, call, now), a)
  {
    match call
    case Materialize(b) => ReadsOnlyCountUse(c, y.store, Table(y.store, b), now);
    case Evict(max, order) => EvictionSparesTables(y, order, max);
    case _ =>
  }

  // ----- the invariant of one subscription -----

  ghost predicate AwaitedProtected(w: World, a: AgentId, p: string) {
    forall id :: Awaited(w, a, p, id) ==> Protected(w.system, id)
  }

  /** Everything up to the offset is mounted or in the hands of a poll. */
  ghost predicate DeliveredHeld(w: World, a: AgentId, p: string) {
    forall i :: 0 <= i < |Bb.Log(w.board, p)| && i < Bb.Offset(w.board, p, a) ==>
      var id := Bb.Log(w.board, p)[i].pageId;
      id in Table(w.system.store, a) || InFlight(w.polls, a, p, id)
  }

  ghost predicate Subscribed(w: World, a: AgentId, p: string) {
    Ledger(w.system) && Bb.Consistent(w.board) && AwaitedProtected(w, a, p) && DeliveredHeld(w, a, p)
  }

  /** The parts of the invariant that steps are shown to keep one at a time. */
  ghost predicate Followed(w: World, a: AgentId, p: string) {
    AwaitedProtected(w, a, p) && DeliveredHeld(w, a, p)
  }

  lemma CvmKeepsAwaited(c: Codec, w: World, step: Step, now: int, a: AgentId, p: string)
    requires AwaitedProtected(w, a, p) && Possible(w, Cvm(step)) && Retains(w, Cvm(step), a, p)
    ensures AwaitedProtected(Advance(c, w, Cvm(step), now), a, p)
  {
    var z := Advance(c, w, Cvm(step), now);
    forall id | Awaited(z, a, p, id)
      ensures Protected(z.system, id)
    {
      assert Awaited(w, a, p, id);
      StepKeepsProtection(c, w.system, step, now, id);
    }
  }

  lemma CvmKeepsDelivered(c: Codec, w: World, step: Step, now: int, a: AgentId, p: string)
    requires DeliveredHeld(w, a, p) && Counted(w.system) && Possible(w, Cvm(step)) && Retains(w, Cvm(step), a, p)
    ensures DeliveredHeld(Advance(c, w, Cvm(step), now), a, p)
  {
    var z := Advance(c, w, Cvm(step), now);
    var log := Bb.Log(w.board, p);
    forall i | 0 <= i < |log| && i < Bb.Offset(w.board, p, a)
      ensures log[i].pageId in Table(z.system.store, a) || InFlight(z.polls, a, p, log[i].pageId)
    {
      var id := log[i].pageId;
      assert Bb.PageIds(log)[i] == id;
      if id in Table(w.system.store, a) {
        StepKeepsMounted(c, w.system, step, now, a, id);
      }
    }
  }

  lemma PublishKeepsFollowed(w: World, z: World, m: Bb.Message, a: AgentId, p: string)
    requires Followed(w, a, p) && Bb.OffsetsWithin(w.board) && Retains(w, Publish(m), a, p)
    requires z == w.(board := Bb.PublishStep(w.board, m))
    ensures Followed(z, a, p)
  {
    var log, k := Bb.Log(w.board, p), Bb.Offset(w.board, p, a);
    assert Bb.Offset(z.board, p, a) == k <= |log|;
    assert Bb.Log(z.board, p) == log || (m.topic == p && Bb.Log(z.board, p) == log + [m]);
    forall id | Awaited(z, a, p, id)
      ensures Protected(z.system, id)
    {
      if Unread(z.board, a, p, id) && !Unread(w.board, a, p, id) {
        assert m.topic == p && id == m.pageId;
      } else {
        assert Awaited(w, a, p, id);
      }
    }
    forall i | 0 <= i < |Bb.Log(z.board, p)| && i < k
      ensures var id := Bb.Log(z.board, p)[i].pageId; id in Table(z.system.store, a) || InFlight(z.polls, a, p, id)
    {
      assert Bb.Log(z.board, p)[i] == log[i];
    }
  }

  /** A new frame hides none of the others. */
  lemma InFlightKept(polls: map<Thread, Frame>, t: Thread, f: Frame, a: AgentId, p: string, id: PageId)
    requires t !in polls && InFlight(polls, a, p, id)
    ensures InFlight(polls[t := f], a, p, id)
  {
    var r :| r in polls && polls[r].agent == a && polls[r].topic == p && id in polls[r].rest;
    assert r in polls[t := f] && polls[t := f][r] == polls[r];
  }

  /** A poll of another subscription changes neither the log nor the offset of this one. */
  lemma OtherPollBegin(w: World, z: World, t: Thread, f: Frame, a: AgentId, p: string)
    requires Followed(w, a, p) && t !in w.polls && (f.agent != a || f.topic != p)
    requires z == w.(board := Bb.PollStep(w.board, f.topic, f.agent).0, polls := w.polls[t := f])
    ensures Followed(z, a, p)
  {
    Bb.SubscribersIndependent(w.board, Bb.Poll(f.topic, f.agent), p, a);
    assert Bb.Offset(z.board, p, a) == Bb.Offset(w.board, p, a);
    forall id | Awaited(z, a, p, id)
      ensures Protected(z.system, id)
    {
      if InFlight(z.polls, a, p, id) {
        var r :| r in z.polls && z.polls[r].agent == a && z.polls[r].topic == p && id in z.polls[r].rest;
        assert r != t && r in w.polls && InFlight(w.polls, a, p, id);
      } else {
        assert Unread(w.board, a, p, id);
      }
      assert Awaited(w, a, p, id);
    }
    var log := Bb.Log(w.board, p);
    forall i | 0 <= i < |log| && i < Bb.Offset(w.board, p, a)
      ensures log[i].pageId in Table(z.system.store, a) || InFlight(z.polls, a, p, log[i].pageId)
    {
      if log[i].pageId !in Table(w.system.store, a) { InFlightKept(w.polls, t, f, a, p, log[i].pageId); }
    }
  }

  lemma OwnPollAwaits(w: World, z: World, t: Thread, a: AgentId, p: string)
    requires AwaitedProtected(w, a, p) && t !in w.polls
    requires var (board, delivered) := Bb.PollStep(w.board, p, a);
      z == w.(board := board, polls := w.polls[t := Frame(a, p, Bb.PageIds(delivered))])
    ensures AwaitedProtected(z, a, p)
  {
    var log, k := Bb.Log(w.board, p), Bb.Start(w.board, p, a);
    forall id | Awaited(z, a, p, id)
      ensures Protected(z.system, id)
    {
      var r :| r in z.polls && z.polls[r].agent == a && z.polls[r].topic == p && id in z.polls[r].rest;
      if r == t {
        var i :| 0 <= i < |log| - k && Bb.PageIds(log[k..])[i] == id;
        assert log[k + i].pageId == id;
        assert Unread(w.board, a, p, id);
      }
      assert Awaited(w, a, p, id);
    }
  }

  lemma OwnPollDelivers(w: World, z: World, t: Thread, a: AgentId, p: string)
    requires DeliveredHeld(w, a, p) && t !in w.polls
    requires var (board, delivered) := Bb.PollStep(w.board, p, a);
      z == w.(board := board, polls := w.polls[t := Frame(a, p, Bb.PageIds(delivered))])
    ensures DeliveredHeld(z, a, p)
  {
    var log, k := Bb.Log(w.board, p), Bb.Start(w.board, p, a);
    var rest := Bb.PageIds(log[k..]);
    forall i | 0 <= i < |log|
      ensures log[i].pageId in Table(z.system.store, a) || InFlight(z.polls, a, p, log[i].pageId)
    {
      if i >= k {
        assert rest[i - k] == log[i].pageId && z.polls[t].rest == rest;
      } else if log[i].pageId !in Table(w.system.store, a) {
        InFlightKept(w.polls, t, Frame(a, p, rest), a, p, log[i].pageId);
      }
    }
  }

  lemma PollBeginKeepsFollowed(c: Codec, w: World, t: Thread, b: AgentId, q: string, now: int, a: AgentId, p: string)
    requires Followed(w, a, p) && t !in w.polls
    ensures Followed(Advance(c, w, PollBegin(t, b, q), now), a, p)
  {
    var z := Advance(c, w, PollBegin(t, b, q), now);
    if b == a && q == p {
      OwnPollAwaits(w, z, t, a, p);
      OwnPollDelivers(w, z, t, a, p);
    } else {
      OtherPollBegin(w, z, t, z.polls[t], a, p);
    }
  }

  /** A mount of this subscription finds its page. */
  lemma OwnMountSucceeds(w: World, t: Thread, now: int, a: AgentId, p: string)
    requires AwaitedProtected(w, a, p) && t in w.polls && w.polls[t].rest != []
    requires w.polls[t].agent == a && w.polls[t].topic == p
    ensures MountStep(w.system.store, a, w.polls[t].rest[0], now).1 == Ok(())
  {
    assert w.polls[t].rest[0] in w.polls[t].rest;
    assert Awaited(w, a, p, w.polls[t].rest[0]);
  }

  lemma PollMountKeepsFollowed(c: Codec, w: World, t: Thread, now: int, a: AgentId, p: string)
    requires Followed(w, a, p) && Counted(w.system) && Possible(w, PollMount(t))
    ensures Followed(Advance(c, w, PollMount(t), now), a, p)
  {
    var f, z := w.polls[t], Advance(c, w, PollMount(t), now);
    if f.agent == a && f.topic == p { OwnMountSucceeds(w, t, now, a, p); }
    forall id | Awaited(z, a, p, id)
      ensures Protected(z.system, id)
    {
      AwaitedShrinks(w, z, t, a, p, id);
      StepKeepsProtection(c, w.system, MountOf(f), now, id);
    }
    var log := Bb.Log(w.board, p);
    forall i | 0 <= i < |log| && i < Bb.Offset(w.board, p, a)
      ensures log[i].pageId in Table(z.system.store, a) || InFlight(z.polls, a, p, log[i].pageId)
    {
      if log[i].pageId in Table(w.system.store, a) {
        StepKeepsMounted(c, w.system, MountOf(f), now, a, log[i].pageId);
      } else {
        MountedOrStillInFlight(c, w, z, t, now, a, p, log[i].pageId);
      }
    }
  }

  /** A mount adds nothing to what is awaited. */
  lemma AwaitedShrinks(w: World, z: World, t: Thread, a: AgentId, p: string, id: PageId)
    requires t in w.polls && w.polls[t].rest != [] && z.board == w.board
    requires z.polls.Keys == w.polls.Keys && forall r :: r in w.polls && r != t ==> z.polls[r] == w.polls[r]
    requires z.polls[t].agent == w.polls[t].agent && z.polls[t].topic == w.polls[t].topic
    requires z.polls[t].rest == w.polls[t].rest[1..] || z.polls[t].rest == []
    requires Awaited(z, a, p, id)
    ensures Awaited(w, a, p, id)
  {
    if InFlight(z.polls, a, p, id) {
      var r :| r in z.polls && z.polls[r].agent == a && z.polls[r].topic == p && id in z.polls[r].rest;
      assert r in w.polls && w.polls[r].agent == a && w.polls[r].topic == p && id in w.polls[r].rest;
    }
  }

  lemma MountedOrStillInFlight(c: Codec, w: World, z: World, t: Thread, now: int, a: AgentId, p: string, id: PageId)
    requires Possible(w, PollMount(t)) && z == Advance(c, w, PollMount(t), now)
    requires InFlight(w.polls, a, p, id)
    requires w.polls[t].agent == a && w.polls[t].topic == p ==> PageLive(w.system, w.polls[t].rest[0])
    ensures id in Table(z.system.store, a) || InFlight(z.polls, a, p, id)
  {
    var r :| r in w.polls && w.polls[r].agent == a && w.polls[r].topic == p && id in w.polls[r].rest;
    if r != t || id in w.polls[t].rest[1..] {
      assert r in z.polls && id in z.polls[r].rest;
    } else {
      assert id == w.polls[t].rest[0];
    }
  }

  lemma MoveKeepsFollowed(c: Codec, w: World, move: Move, now: int, a: AgentId, p: string)
    requires Followed(w, a, p) && Counted(w.system) && Bb.OffsetsWithin(w.board)
    requires Possible(w, move) && Retains(w, move, a, p)
    ensures Followed(Advance(c, w, move, now), a, p)
  {
    match move
    case Cvm(step) =>
      CvmKeepsAwaited(c, w, step, now, a, p);
      CvmKeepsDelivered(c, w, step, now, a, p);
    case Publish(m) => PublishKeepsFollowed(w, Advance(c, w, move, now), m, a, p);
    case PollBegin(t, b, q) => PollBeginKeepsFollowed(c, w, t, b, q, now, a, p);
    case PollMount(t) => PollMountKeepsFollowed(c, w, t, now, a, p);
  }

  lemma MoveKeepsBoards(c: Codec, w: World, move: Move, now: int)
    requires Ledger(w.system) && Bb.Consistent(w.board) && Possible(w, move)
    ensures var z := Advance(c, w, move, now); Ledger(z.system) && Bb.Consistent(z.board)
  {
    match move
    case Cvm(step) => StepKeepsLedger(c, w.system, step, now);
    case Publish(m) => Bb.PublishKeepsConsistent(w.board, m);
    case PollBegin(t, b, q) => Bb.PollKeepsConsistent(w.board, q, b);
    case PollMount(t) => StepKeepsLedger(c, w.system, MountOf(w.polls[t]), now);
  }

  // ----- runs -----

  ghost predicate WorldRun(c: Codec, run: seq<World>, moves: seq<(Move, int)>) {
    && |run| == |moves| + 1 && run[0] == EMPTY_WORLD
    && forall i :: 0 <= i < |moves| ==>
         Possible(run[i], moves[i].0) && run[i + 1] == Advance(c, run[i], moves[i].0, moves[i].1)
  }

  ghost predicate ExchangeRun(c: Codec, run: seq<World>, moves: seq<(Move, int)>, a: AgentId, p: string) {
    && WorldRun(c, run, moves)
    && forall i :: 0 <= i < |moves| ==> Retains(run[i], moves[i].0, a, p)
  }

  lemma {:induction false} SubscribedInEveryRun(c: Codec, run: seq<World>, moves: seq<(Move, int)>, a: AgentId, p: string, k: nat)
    requires ExchangeRun(c, run, moves, a, p) && k < |run|
    ensures Subscribed(run[k], a, p)
  {
    if k == 0 {
      assert Bb.Depths(Bb.EMPTY_BOARD) == map[] && Bb.TopicSizes(Bb.EMPTY_BOARD) == map[];
      assert Bb.Log(EMPTY_WORLD.board, p) == [];
    } else {
      SubscribedInEveryRun(c, run, moves, a, p, k - 1);
      MoveKeepsBoards(c, run[k - 1], moves[k - 1].0, moves[k - 1].1);
      MoveKeepsFollowed(c, run[k - 1], moves[k - 1].0, moves[k - 1].1, a, p);
    }
  }

  /** No mount of the subscription ever fails, however its poll is interleaved. */
  lemma PollMountsNeverFail(c: Codec, run: seq<World>, moves: seq<(Move, int)>, a: AgentId, p: string,
                            k: nat, t: Thread, now: int)
    requires ExchangeRun(c, run, moves, a, p) && k < |run|
    requires t in run[k].polls && run[k].polls[t].agent == a && run[k].polls[t].topic == p
    requires run[k].polls[t].rest != []
    ensures MountStep(run[k].system.store, a, run[k].polls[t].rest[0], now).1 == Ok(())
  {
    SubscribedInEveryRun(c, run, moves, a, p, k);
    OwnMountSucceeds(run[k], t, now, a, p);
  }

  /** No poll of this subscription still has pages to mount. */
  ghost predicate PollsDone(w: World, a: AgentId, p: string) {
    forall t :: t in w.polls && w.polls[t].agent == a && w.polls[t].topic == p ==> w.polls[t].rest == []
  }

  /** With its own polls done, whatever others do, the subscriber holds every page of the topic up to its offset. */
  lemma PolledPagesAreMounted(c: Codec, run: seq<World>, moves: seq<(Move, int)>, a: AgentId, p: string, k: nat)
    requires ExchangeRun(c, run, moves, a, p) && k < |run|
    requires PollsDone(run[k], a, p)
    ensures forall i :: 0 <= i < |Bb.Log(run[k].board, p)| && i < Bb.Offset(run[k].board, p, a) ==>
              Bb.Log(run[k].board, p)[i].pageId in Table(run[k].system.store, a)
  {
    SubscribedInEveryRun(c, run, moves, a, p, k);
  }
}
