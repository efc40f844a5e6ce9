/** The event hub: a bounded history replayed to new subscribers, and live events until a buffer fills. */
module Hub {
  import opened Prelude

  datatype Event = Event(kind: string, taskId: string, agentId: string, source: string)

  const HISTORY_SIZE: nat := 256

  /** The end of the list, at most `HISTORY_SIZE` long. */
  function KeepLast(events: seq<Event>): seq<Event> {
    if |events| > HISTORY_SIZE then events[|events| - HISTORY_SIZE..] else events
  }

  /** A send that gives up when the buffer is full. */
  function Offer(buffered: seq<Event>, capacity: nat, e: Event): seq<Event> {
    if |buffered| < capacity then buffered + [e] else buffered
  }

  function Replay(history: seq<Event>, capacity: nat): seq<Event> {
    if history == [] then []
    else Offer(Replay(history[..|history| - 1], capacity), capacity, history[|history| - 1])
  }

  /** A buffer no shorter than the history takes all of it. */
  lemma {:induction false} ReplayIsWhole(history: seq<Event>, capacity: nat)
    requires |history| <= capacity
    ensures Replay(history, capacity) == history
  {
    if history != [] {
      var front := history[..|history| - 1];
      ReplayIsWhole(front, capacity);
      assert history == front + [history[|history| - 1]];
    }
  }

  // ----- runs -----

  /** Channels are numbered in the order of subscription. */
  datatype Channel = Channel(buffered: seq<Event>, closed: bool)

  datatype State = State(buffer: nat, history: seq<Event>, subscribers: set<nat>, channels: seq<Channel>)

  datatype Op = Publish(event: Event) | Subscribe | Receive(channel: nat) | Cancel(channel: nat)

  function Capacity(buffer: int): nat {
    if buffer < 256 then 256 else buffer
  }

  function Init(buffer: int): State {
    State(Capacity(buffer), [], {}, [])
  }

  /** The event offered to every subscriber. */
  function Sent(h: State, e: Event): State {
    h.(channels := seq(|h.channels|, i requires 0 <= i < |h.channels| =>
         if i in h.subscribers then h.channels[i].(buffered := Offer(h.channels[i].buffered, h.buffer, e))
         else h.channels[i]))
  }

  function Next(h: State, op: Op): State {
    match op
    case Publish(e) => Sent(h, e).(history := KeepLast(h.history + [e]))
    case Subscribe =>
      h.(subscribers := h.subscribers + {|h.channels|},
         channels := h.channels + [Channel(Replay(h.history, h.buffer), false)])
    case Receive(c) =>
      if c < |h.channels| && h.channels[c].buffered != [] then
        h.(channels := h.channels[c := h.channels[c].(buffered := h.channels[c].buffered[1..])])
      else h
    case Cancel(c) =>
      if c in h.subscribers && c < |h.channels| then
        h.(subscribers := h.subscribers - {c}, channels := h.channels[c := h.channels[c].(closed := true)])
      else h
  }

  function After(buffer: int, ops: seq<Op>): State {
    if ops == [] then Init(buffer) else Next(After(buffer, ops[..|ops| - 1]), ops[|ops| - 1])
  }

  /** The channels sent to are exactly the open ones, and no buffer overflows. */
  ghost predicate Sane(h: State) {
    && h.buffer >= HISTORY_SIZE >= |h.history|
    && (forall c: nat :: c in h.subscribers <==> c < |h.channels| && !h.channels[c].closed)
    && (forall c :: 0 <= c < |h.channels| ==> |h.channels[c].buffered| <= h.buffer)
  }

  lemma StepKeepsSane(h: State, op: Op)
    requires Sane(h)
    ensures Sane(Next(h, op))
  {
    ReplayIsWhole(h.history, h.buffer);
  }

  /** In every run nothing is ever sent on a closed channel. */
  lemma {:induction false} SaneInEveryRun(buffer: int, ops: seq<Op>)
    ensures Sane(After(buffer, ops))
  {
    if ops != [] {
      SaneInEveryRun(buffer, ops[..|ops| - 1]);
      StepKeepsSane(After(buffer, ops[..|ops| - 1]), ops[|ops| - 1]);
    }
  }

  function Live(op: Op): seq<Event> {
    if op.Publish? then [op.event] else []
  }

  function Published(ops: seq<Op>): seq<Event> {
    if ops == [] then [] else Published(ops[..|ops| - 1]) + Live(ops[|ops| - 1])
  }

  lemma KeepLastStep(events: seq<Event>, e: Event)
    ensures KeepLast(KeepLast(events) + [e]) == KeepLast(events + [e])
  {
  }

  lemma HistoryStep(h: State, op: Op)
    ensures Next(h, op).history == if op.Publish? then KeepLast(h.history + [op.event]) else h.history
  {
  }

  /** The history is the last 256 published events, or all of them while there are fewer. */
  lemma {:induction false} HistoryIsLastPublished(buffer: int, ops: seq<Op>)
    ensures After(buffer, ops).history == KeepLast(Published(ops))
    ensures var p := Published(ops); After(buffer, ops).history == if |p| <= 256 then p else p[|p| - 256..]
  {
    if ops != [] {
      var front, op := ops[..|ops| - 1], ops[|ops| - 1];
      HistoryIsLastPublished(buffer, front);
      HistoryStep(After(buffer, front), op);
      assert Published(ops) == Published(front) + Live(op);
      if op.Publish? {
        KeepLastStep(Published(front), op.event);
      } else {
        assert Published(front) + Live(op) == Published(front);
      }
    }
  }

  /** What the last operation of a run offers to channel `c`. */
  function OfferedNow(h: State, op: Op, c: nat): seq<Event> {
    match op
    case Publish(e) => if c in h.subscribers then [e] else []
    case Subscribe => if c == |h.channels| then h.history else []
    case _ => []
  }

  /** Everything the hub has tried to send to channel `c`. */
  function Offered(buffer: int, ops: seq<Op>, c: nat): seq<Event> {
    if ops == [] then []
    else
      var front := ops[..|ops| - 1];
      Offered(buffer, front, c) + OfferedNow(After(buffer, front), ops[|ops| - 1], c)
  }

  function AcceptedNow(h: State, op: Op, c: nat): seq<Event> {
    if op.Publish? && c < |h.channels| && |h.channels[c].buffered| >= h.buffer then [] else OfferedNow(h, op, c)
  }

  /** What was put in the buffer: everything offered except the live events that found it full. */
  function Accepted(buffer: int, ops: seq<Op>, c: nat): seq<Event> {
    if ops == [] then []
    else
      var front := ops[..|ops| - 1];
      Accepted(buffer, front, c) + AcceptedNow(After(buffer, front), ops[|ops| - 1], c)
  }

  function TakenNow(h: State, op: Op, c: nat): seq<Event> {
    if op == Receive(c) && c < |h.channels| && h.channels[c].buffered != [] then [h.channels[c].buffered[0]] else []
  }

  /** What the subscriber has received. */
  function Taken(buffer: int, ops: seq<Op>, c: nat): seq<Event> {
    if ops == [] then []
    else
      var front := ops[..|ops| - 1];
      Taken(buffer, front, c) + TakenNow(After(buffer, front), ops[|ops| - 1], c)
  }

  function Buffered(h: State, c: nat): seq<Event> {
    if c < |h.channels| then h.channels[c].buffered else []
  }

  lemma TakeOne(h: State, op: Op, c: nat)
    requires Sane(h)
    ensures TakenNow(h, op, c) + Buffered(Next(h, op), c) == Buffered(h, c) + AcceptedNow(h, op, c)
  {
    match op
    case Publish(e) =>
    case Subscribe => ReplayIsWhole(h.history, h.buffer);
    case Receive(d) =>
      if c == d && Buffered(h, c) != [] { assert Buffered(h, c) == [Buffered(h, c)[0]] + Buffered(h, c)[1..]; }
    case Cancel(d) =>
  }

  lemma Regroup(a: seq<Event>, b: seq<Event>, c: seq<Event>)
    ensures (a + b) + c == a + (b + c)
  {
  }

  /** In every run what was received, then what is still buffered, is what was accepted, in order. */
  lemma {:induction false} ReceivedInOrder(buffer: int, ops: seq<Op>, c: nat)
    ensures Taken(buffer, ops, c) + Buffered(After(buffer, ops), c) == Accepted(buffer, ops, c)
  {
    if ops != [] {
      var front, op := ops[..|ops| - 1], ops[|ops| - 1];
      var h := After(buffer, front);
      ReceivedInOrder(buffer, front, c);
      SaneInEveryRun(buffer, front);
      TakeOne(h, op, c);
      Regroup(Taken(buffer, front, c), TakenNow(h, op, c), Buffered(Next(h, op), c));
      Regroup(Taken(buffer, front, c), Buffered(h, c), AcceptedNow(h, op, c));
    }
  }

  /** `a` is `b` with some entries left out. */
  ghost predicate Subsequence(a: seq<Event>, b: seq<Event>) {
    || (a == [] && b == [])
    || (b != [] && Subsequence(a, b[..|b| - 1]))
    || (a != [] && b != [] && a[|a| - 1] == b[|b| - 1] && Subsequence(a[..|a| - 1], b[..|b| - 1]))
  }

  lemma {:induction false} SubsequenceAppend(a: seq<Event>, b: seq<Event>, more: seq<Event>)
    requires Subsequence(a, b)
    ensures Subsequence(a, b + more) && Subsequence(a + more, b + more)
  {
    if more == [] {
      assert a + more == a && b + more == b;
    } else {
      var n := |more| - 1;
      SubsequenceAppend(a, b, more[..n]);
      assert (b + more)[..|b + more| - 1] == b + more[..n];
      assert (a + more)[..|a + more| - 1] == a + more[..n];
    }
  }

  lemma {:induction false} AcceptedFromOffered(buffer: int, ops: seq<Op>, c: nat)
    ensures Subsequence(Accepted(buffer, ops, c), Offered(buffer, ops, c))
    ensures |Accepted(buffer, ops, c)| <= |Offered(buffer, ops, c)|
  {
    if ops != [] {
      var front, op := ops[..|ops| - 1], ops[|ops| - 1];
      AcceptedFromOffered(buffer, front, c);
      SubsequenceAppend(Accepted(buffer, front, c), Offered(buffer, front, c), OfferedNow(After(buffer, front), op, c));
      assert AcceptedNow(After(buffer, front), op, c) == [] ==>
        Accepted(buffer, ops, c) == Accepted(buffer, front, c);
    }
  }

  /** How far the subscriber is behind what was offered to it. */
  function Backlog(buffer: int, ops: seq<Op>, c: nat): int {
    |Offered(buffer, ops, c)| - |Taken(buffer, ops, c)|
  }

  /** At no point of the run is the subscriber further behind than a full buffer. */
  predicate KeepsUp(buffer: int, ops: seq<Op>, c: nat) {
    Backlog(buffer, ops, c) <= Capacity(buffer) && (ops == [] || KeepsUp(buffer, ops[..|ops| - 1], c))
  }

  lemma {:induction false} BufferIsFixed(buffer: int, ops: seq<Op>)
    ensures After(buffer, ops).buffer == Capacity(buffer) == if buffer > 256 then buffer else 256
  {
    if ops != [] { BufferIsFixed(buffer, ops[..|ops| - 1]); }
  }

  /** A subscriber misses nothing exactly when it never falls behind by more than the buffer. */
  lemma {:induction false} NothingDroppedIffKeepsUp(buffer: int, ops: seq<Op>, c: nat)
    ensures Accepted(buffer, ops, c) == Offered(buffer, ops, c) <==> KeepsUp(buffer, ops, c)
  {
    BufferIsFixed(buffer, ops);
    SaneInEveryRun(buffer, ops);
    ReceivedInOrder(buffer, ops, c);
    if ops != [] {
      var front, op := ops[..|ops| - 1], ops[|ops| - 1];
      var h := After(buffer, front);
      NothingDroppedIffKeepsUp(buffer, front, c);
      SaneInEveryRun(buffer, front);
      BufferIsFixed(buffer, front);
      ReceivedInOrder(buffer, front, c);
      AcceptedFromOffered(buffer, front, c);
      if Accepted(buffer, ops, c) == Offered(buffer, ops, c) {
        assert |AcceptedNow(h, op, c)| == |OfferedNow(h, op, c)|;
        assert Accepted(buffer, ops, c)[..|Accepted(buffer, front, c)|] == Accepted(buffer, front, c);
        assert Offered(buffer, ops, c)[..|Offered(buffer, front, c)|] == Offered(buffer, front, c);
      }
    }
  }

  lemma OneMore(buffer: int, ops: seq<Op>, op: Op, c: nat)
    requires c in After(buffer, ops).subscribers && c < |After(buffer, ops).channels| && op != Cancel(c)
    ensures c in After(buffer, ops + [op]).subscribers && c < |After(buffer, ops + [op]).channels|
    ensures Offered(buffer, ops + [op], c) == Offered(buffer, ops, c) + Live(op)
  {
    assert (ops + [op])[..|ops|] == ops;
    OfferedToOpen(After(buffer, ops), op, c);
  }

  /** A channel stays open, and is offered every event published, until it is cancelled. */
  lemma {:induction false} OfferedSince(buffer: int, start: seq<Op>, since: seq<Op>, c: nat)
    requires c in After(buffer, start).subscribers && c < |After(buffer, start).channels| && Cancel(c) !in since
    ensures c in After(buffer, start + since).subscribers && c < |After(buffer, start + since).channels|
    ensures Offered(buffer, start + since, c) == Offered(buffer, start, c) + Published(since)
  {
    if since == [] {
      assert start + since == start;
    } else {
      var front, op := since[..|since| - 1], since[|since| - 1];
      assert since == front + [op];
      assert Cancel(c) !in front && op != Cancel(c);
      OfferedSince(buffer, start, front, c);
      OfferedOneMore(buffer, start + front, start, front, op, c);
      assert start + since == start + front + [op];
    }
  }

  lemma OfferedOneMore(buffer: int, ops: seq<Op>, start: seq<Op>, since: seq<Op>, op: Op, c: nat)
    requires c in After(buffer, ops).subscribers && c < |After(buffer, ops).channels|
    requires Offered(buffer, ops, c) == Offered(buffer, start, c) + Published(since) && op != Cancel(c)
    ensures c in After(buffer, ops + [op]).subscribers && c < |After(buffer, ops + [op]).channels|
    ensures Offered(buffer, ops + [op], c) == Offered(buffer, start, c) + Published(since + [op])
  {
    OneMore(buffer, ops, op, c);
    assert (since + [op])[..|since|] == since;
    Regroup(Offered(buffer, start, c), Published(since), Live(op));
  }

  /** An open channel was offered the last 256 events before it subscribed, then every event since. */
  lemma OfferedIsHistoryThenLive(buffer: int, before: seq<Op>, since: seq<Op>)
    requires var c := |After(buffer, before).channels|; Cancel(c) !in since
    ensures var c, ops := |After(buffer, before).channels|, before + [Subscribe] + since;
      && c in After(buffer, ops).subscribers && c < |After(buffer, ops).channels|
      && Offered(buffer, ops, c) == KeepLast(Published(before)) + Published(since)
  {
    SubscriptionOffersHistory(buffer, before);
    OfferedSince(buffer, before + [Subscribe], since, |After(buffer, before).channels|);
  }

  lemma SubscriptionOffersHistory(buffer: int, before: seq<Op>)
    ensures var c, h := |After(buffer, before).channels|, After(buffer, before + [Subscribe]);
      c in h.subscribers && c < |h.channels|
      && Offered(buffer, before + [Subscribe], c) == KeepLast(Published(before))
  {
    assert (before + [Subscribe])[..|before|] == before;
    HistoryIsLastPublished(buffer, before);
    NothingBeforeSubscribing(buffer, before, |After(buffer, before).channels|);
  }

  lemma OfferedToOpen(h: State, op: Op, c: nat)
    requires c in h.subscribers && c < |h.channels| && op != Cancel(c)
    ensures c in Next(h, op).subscribers && c < |Next(h, op).channels|
    ensures OfferedNow(h, op, c) == Live(op)
  {
  }

  lemma {:induction false} NothingBeforeSubscribing(buffer: int, ops: seq<Op>, c: nat)
    requires c >= |After(buffer, ops).channels|
    ensures Offered(buffer, ops, c) == []
  {
    if ops != [] {
      var front := ops[..|ops| - 1];
      SaneInEveryRun(buffer, front);
      NothingBeforeSubscribing(buffer, front, c);
    }
  }

  /** A subscriber that keeps up receives the replayed history and then every live event, once, in order. */
  lemma SubscriberSeesAll(buffer: int, before: seq<Op>, since: seq<Op>)
    requires var c, ops := |After(buffer, before).channels|, before + [Subscribe] + since;
      Cancel(c) !in since && KeepsUp(buffer, ops, c)
    ensures var c, ops := |After(buffer, before).channels|, before + [Subscribe] + since;
      Taken(buffer, ops, c) + Buffered(After(buffer, ops), c) == KeepLast(Published(before)) + Published(since)
  {
    var c, ops := |After(buffer, before).channels|, before + [Subscribe] + since;
    OfferedIsHistoryThenLive(buffer, before, since);
    NothingDroppedIffKeepsUp(buffer, ops, c);
    ReceivedInOrder(buffer, ops, c);
  }

  // ----- cancelled subscribers -----

  lemma ClosedStep(h: State, op: Op, c: nat)
    requires Sane(h) && c < |h.channels| && h.channels[c].closed
    ensures c < |Next(h, op).channels| && Next(h, op).channels[c].closed && OfferedNow(h, op, c) == []
  {
  }

  /** The run closed the channel and has offered it just the given events. */
  ghost predicate ClosedWith(buffer: int, ops: seq<Op>, c: nat, offered: seq<Event>) {
    c < |After(buffer, ops).channels| && After(buffer, ops).channels[c].closed && Offered(buffer, ops, c) == offered
  }

  lemma ClosedOneMore(buffer: int, ops: seq<Op>, op: Op, c: nat, offered: seq<Event>)
    requires ClosedWith(buffer, ops, c, offered)
    ensures ClosedWith(buffer, ops + [op], c, offered)
  {
    assert (ops + [op])[..|ops|] == ops;
    SaneInEveryRun(buffer, ops);
    ClosedStep(After(buffer, ops), op, c);
  }

  lemma CancelCloses(buffer: int, ops: seq<Op>, c: nat)
    requires c < |After(buffer, ops).channels|
    ensures ClosedWith(buffer, ops + [Cancel(c)], c, Offered(buffer, ops, c))
  {
    assert (ops + [Cancel(c)])[..|ops|] == ops;
    SaneInEveryRun(buffer, ops);
  }

  /** Once cancelled a channel is closed for good and is offered nothing more. */
  lemma {:induction false} CancelledIsOfferedNothing(buffer: int, before: seq<Op>, c: nat, since: seq<Op>)
    requires c < |After(buffer, before).channels|
    ensures var ops := before + [Cancel(c)] + since;
      && c < |After(buffer, ops).channels| && After(buffer, ops).channels[c].closed
      && Offered(buffer, ops, c) == Offered(buffer, before, c)
  {
    if since == [] {
      CancelCloses(buffer, before, c);
      assert before + [Cancel(c)] + since == before + [Cancel(c)];
    } else {
      var front, op := since[..|since| - 1], since[|since| - 1];
      CancelledIsOfferedNothing(buffer, before, c, front);
      ClosedOneMore(buffer, before + [Cancel(c)] + front, op, c, Offered(buffer, before, c));
      assert before + [Cancel(c)] + since == before + [Cancel(c)] + front + [op];
    }
  }

  // ----- the objects -----

  class Chan {
    const capacity: nat
    var buffered: seq<Event>
    var closed: bool

    ghost function Value(): Channel
      reads this
    {
      Channel(buffered, closed)
    }

    constructor (capacity: nat)
      ensures this.capacity == capacity && buffered == [] && !closed
    {
      this.capacity := capacity;
      buffered := [];
      closed := false;
    }

    /** Sending on a closed channel is a crash. */
    method TrySend(e: Event) returns (sent: bool)
      requires !closed
      modifies this
      ensures sent <==> |old(buffered)| < capacity
      ensures buffered == Offer(old(buffered), capacity, e) && closed == old(closed)
    {
      sent := |buffered| < capacity;
      if sent {
        buffered := buffered + [e];
      }
    }

    /** Offers a new channel the events in turn. */
    method Fill(events: seq<Event>)
      requires !closed && buffered == []
      modifies this
      ensures buffered == Replay(events, capacity) && !closed
    {
      for i := 0 to |events|
        invariant buffered == Replay(events[..i], capacity) && !closed
      {
        assert events[..i + 1][..i] == events[..i];
        var _ := TrySend(events[i]);
      }
      assert events[..|events|] == events;
    }

    /** What was buffered can be received even after the channel is closed. */
    method TryReceive() returns (e: Option<Event>)
      modifies this
      ensures closed == old(closed)
      ensures if old(buffered) == [] then e == None && buffered == []
              else e == Some(old(buffered)[0]) && buffered == old(buffered)[1..]
    {
      e := None;
      if buffered != [] {
        e := Some(buffered[0]);
        buffered := buffered[1..];
      }
    }

    /** So is closing it twice. */
    method Close()
      requires !closed
      modifies this
      ensures closed && buffered == old(buffered)
    {
      closed := true;
    }
  }

  ghost function Values(channels: seq<Chan>): (values: seq<Channel>)
    reads channels
    ensures |values| == |channels| && forall i :: 0 <= i < |channels| ==> values[i] == channels[i].Value()
  {
    if channels == [] then [] else Values(channels[..|channels| - 1]) + [channels[|channels| - 1].Value()]
  }

  function Added(h: State, c: Channel): State {
    h.(subscribers := h.subscribers + {|h.channels|}, channels := h.channels + [c])
  }

  lemma SentToAll(before: State, after: State, e: Event)
    requires after == before.(channels := after.channels) && |after.channels| == |before.channels|
    requires forall i :: 0 <= i < |after.channels| ==> after.channels[i].closed == before.channels[i].closed
    requires forall i :: 0 <= i < |after.channels| ==>
      after.channels[i].buffered
        == if i in before.subscribers then Offer(before.channels[i].buffered, before.buffer, e) else before.channels[i].buffered
    ensures after == Sent(before, e)
  {
  }

  class EventHub {
    const buffer: nat
    var history: seq<Event>
    var subscribers: set<Chan>
    /** Every channel ever handed out, in order. */
    ghost var channels: seq<Chan>

    /** The channels sent to are exactly the open ones. */
    ghost predicate Valid()
      reads this, channels
    {
      && buffer >= HISTORY_SIZE >= |history|
      && NoDup(channels)
      && (forall ch :: ch in subscribers ==> ch in channels)
      && forall ch :: ch in channels ==> ch.capacity == buffer && (ch in subscribers <==> !ch.closed)
    }

    ghost function Value(): State
      reads this, channels
    {
      State(buffer, history, (set i: nat | i < |channels| && channels[i] in subscribers), Values(channels))
    }

    constructor (buffer: int)
      ensures Valid() && Value() == Init(buffer)
    {
      this.buffer := if buffer < 256 then 256 else buffer;
      history := [];
      subscribers := {};
      channels := [];
    }

    /** A new channel starts with the whole history. */
    method Subscribe() returns (ch: Chan)
      requires Valid()
      modifies this
      ensures Valid() && fresh(ch) && channels == old(channels) + [ch] && subscribers == old(subscribers) + {ch}
      ensures ch.buffered == history == old(history) && !ch.closed
      ensures Value() == Next(old(Value()), Op.Subscribe)
    {
      ch := new Chan(buffer);
      ch.Fill(history);
      ReplayIsWhole(history, buffer);
      Register(ch);
    }

    /** Puts a filled channel among those sent to. */
    method Register(ch: Chan)
      requires Valid() && ch !in channels && !ch.closed && ch.capacity == buffer
      modifies this
      ensures Valid() && channels == old(channels) + [ch] && subscribers == old(subscribers) + {ch}
      ensures history == old(history)
      ensures Value() == Added(old(Value()), ch.Value())
    {
      subscribers := subscribers + {ch};
      channels := channels + [ch];
      assert channels[..|channels| - 1] == old(channels);
      assert Value().subscribers == old(Value()).subscribers + {|old(channels)|};
    }

    method Cancel(c: nat, ch: Chan)
      requires Valid() && c < |channels| && channels[c] == ch
      modifies this, ch
      ensures Valid() && channels == old(channels)
      ensures Value() == Next(old(Value()), Op.Cancel(c))
      ensures ch.closed && ch !in subscribers && ch.buffered == old(ch.buffered) && subscribers == old(subscribers) - {ch}
    {
      if ch in subscribers {
        subscribers := subscribers - {ch};
        ch.Close();
        assert Value().subscribers == old(Value()).subscribers - {c};
        assert Value().channels == old(Value()).channels[c := ch.Value()];
      }
    }

    /** A subscriber takes the oldest event from its channel. */
    method Receive(c: nat, ch: Chan) returns (e: Option<Event>)
      requires Valid() && c < |channels| && channels[c] == ch
      modifies ch
      ensures Valid() && channels == old(channels)
      ensures Value() == Next(old(Value()), Op.Receive(c))
      ensures TakenNow(old(Value()), Op.Receive(c), c) == if e.Some? then [e.value] else []
    {
      e := ch.TryReceive();
      assert Value().channels == old(Value()).channels[c := ch.Value()];
    }

    /** Every subscriber gets the event at the end of its buffer, or not at all if that is full. */
    method Publish(e: Event)
      requires Valid()
      modifies this, subscribers
      ensures Valid() && channels == old(channels)
      ensures Value() == Next(old(Value()), Op.Publish(e))
    {
      Broadcast(e);
      history := history + [e];
      if |history| > HISTORY_SIZE {
        history := history[|history| - HISTORY_SIZE..];
      }
    }

    method Broadcast(e: Event)
      requires Valid()
      modifies subscribers
      ensures Valid() && Value() == Sent(old(Value()), e)
    {
      var todo := subscribers;
      while todo != {}
        invariant todo <= subscribers
        invariant forall ch :: ch in channels ==> ch.closed == old(ch.closed)
        invariant forall ch :: ch in channels ==>
          ch.buffered == if ch in subscribers && ch !in todo then Offer(old(ch.buffered), buffer, e) else old(ch.buffered)
        decreases |todo|
      {
        var ch :| ch in todo;
        todo := todo - {ch};
        var _ := ch.TrySend(e);
      }
      ghost var before, after := old(Value()), Value();
      forall i | 0 <= i < |channels|
        ensures after.channels[i].closed == before.channels[i].closed
        ensures after.channels[i].buffered
             == if i in before.subscribers then Offer(before.channels[i].buffered, buffer, e) else before.channels[i].buffered
      {
        assert channels[i] in channels;
      }
      SentToAll(before, after, e);
    }
  }
}
