/** Topic logs with one offset per subscriber: every message is delivered once, in order. */
module Blackboard {
  import opened Prelude

  datatype Message = Message(topic: string, publisher: string, pageId: string, sizeBytes: nat, ipcMode: string)

  datatype Metric = Metric(topic: string, total: int, delivered: nat, depth: int, avoided: int, ipcMode: string)

  datatype Board = Board(
    topics: map<string, seq<Message>>,
    offsets: map<string, map<string, nat>>,
    total: int,
    avoidedCopy: int)

  const EMPTY_BOARD := Board(map[], map[], 0, 0)

  function Log(b: Board, topic: string): seq<Message> {
    if topic in b.topics then b.topics[topic] else []
  }

  function Offset(b: Board, topic: string, subscriber: string): nat {
    if topic in b.offsets && subscriber in b.offsets[topic] then b.offsets[topic][subscriber] else 0
  }

  function PublishStep(b: Board, m: Message): Board {
    b.(topics := b.topics[m.topic := Log(b, m.topic) + [m]],
       total := b.total + 1,
       avoidedCopy := b.avoidedCopy + m.sizeBytes)
  }

  /** The offset a poll starts from, held to the end of the log. */
  function Start(b: Board, topic: string, subscriber: string): nat {
    var offset := Offset(b, topic, subscriber);
    if offset > |Log(b, topic)| then |Log(b, topic)| else offset
  }

  function PollStep(b: Board, topic: string, subscriber: string): (Board, seq<Message>)
  {
    var log := Log(b, topic);
    var inner := if topic in b.offsets then b.offsets[topic] else map[];
    (b.(offsets := b.offsets[topic := inner[subscriber := |log|]]), log[Start(b, topic, subscriber)..])
  }

  function SizeOf(messages: seq<Message>): int {
    if messages == [] then 0 else SizeOf(messages[..|messages| - 1]) + messages[|messages| - 1].sizeBytes
  }

  lemma SizeOfAppend(messages: seq<Message>, m: Message)
    ensures SizeOf(messages + [m]) == SizeOf(messages) + m.sizeBytes
  {
    assert (messages + [m])[..|messages|] == messages;
  }

  function PageIds(messages: seq<Message>): seq<string> {
    seq(|messages|, i requires 0 <= i < |messages| => messages[i].pageId)
  }

  // ----- the invariant -----

  ghost function Depths(b: Board): map<string, int> {
    map t | t in b.topics :: |b.topics[t]|
  }

  ghost function TopicSizes(b: Board): map<string, int> {
    map t | t in b.topics :: SizeOf(b.topics[t])
  }

  ghost predicate Totalled(b: Board) {
    b.total == Sum(Depths(b)) && b.avoidedCopy == Sum(TopicSizes(b))
  }

  ghost predicate OffsetsWithin(b: Board) {
    forall t, s :: Offset(b, t, s) <= |Log(b, t)|
  }

  /** Totals are the sums over topics and no offset lies beyond its log. */
  ghost predicate Consistent(b: Board) {
    Totalled(b) && OffsetsWithin(b)
  }

  lemma PublishDepths(b: Board, m: Message)
    ensures Sum(Depths(PublishStep(b, m))) == Sum(Depths(b)) + 1
  {
    var n := |Log(b, m.topic)| + 1;
    assert Depths(PublishStep(b, m)) == Depths(b)[m.topic := n];
    SumUpdate(Depths(b), m.topic, n);
  }

  lemma PublishTopicSizes(b: Board, m: Message)
    ensures TopicSizes(PublishStep(b, m)) == TopicSizes(b)[m.topic := SizeOf(Log(b, m.topic) + [m])]
  {
  }

  lemma PublishSizes(b: Board, m: Message)
    ensures Sum(TopicSizes(PublishStep(b, m))) == Sum(TopicSizes(b)) + m.sizeBytes
  {
    var n := SizeOf(Log(b, m.topic) + [m]);
    SizeOfAppend(Log(b, m.topic), m);
    PublishTopicSizes(b, m);
    SumUpdate(TopicSizes(b), m.topic, n);
    assert m.topic !in b.topics ==> Log(b, m.topic) == [];
  }

  lemma PublishKeepsConsistent(b: Board, m: Message)
    requires Consistent(b)
    ensures Consistent(PublishStep(b, m))
  {
    PublishDepths(b, m);
    PublishSizes(b, m);
    PublishKeepsOffsets(b, m);
  }

  lemma PublishKeepsOffsets(b: Board, m: Message)
    requires OffsetsWithin(b)
    ensures OffsetsWithin(PublishStep(b, m))
  {
    forall t, s
      ensures Offset(PublishStep(b, m), t, s) <= |Log(PublishStep(b, m), t)|
    {
      assert Offset(b, t, s) <= |Log(b, t)|;
    }
  }

  lemma PollKeepsConsistent(b: Board, topic: string, subscriber: string)
    requires Consistent(b)
    ensures Consistent(PollStep(b, topic, subscriber).0)
  {
    var b' := PollStep(b, topic, subscriber).0;
    assert Depths(b') == Depths(b) && TopicSizes(b') == TopicSizes(b);
    forall t, s
      ensures Offset(b', t, s) <= |Log(b', t)|
    {
      assert Offset(b, t, s) <= |Log(b, t)|;
    }
  }

  // ----- runs -----

  datatype Op = Publish(message: Message) | Poll(topic: string, subscriber: string)

  ghost function Next(b: Board, op: Op): Board
  {
    match op
    case Publish(m) => PublishStep(b, m)
    case Poll(t, s) => PollStep(b, t, s).0
  }

  /** What `subscriber` gets on `topic` from the step. */
  ghost function Got(b: Board, op: Op, topic: string, subscriber: string): seq<Message>
  {
    if op == Poll(topic, subscriber) then PollStep(b, topic, subscriber).1 else []
  }

  /** The board after the first operations of a run. */
  ghost function After(ops: seq<Op>): (b: Board)
    ensures Consistent(b)
  {
    if ops == [] then
      assert Depths(EMPTY_BOARD) == map[] && TopicSizes(EMPTY_BOARD) == map[];
      EMPTY_BOARD
    else
      var prev, op := After(ops[..|ops| - 1]), ops[|ops| - 1];
      if op.Publish? then PublishKeepsConsistent(prev, op.message); Next(prev, op)
      else PollKeepsConsistent(prev, op.topic, op.subscriber); Next(prev, op)
  }

  /** Everything delivered to one subscriber on one topic, in delivery order. */
  ghost function Delivered(ops: seq<Op>, topic: string, subscriber: string): seq<Message> {
    if ops == [] then []
    else
      Delivered(ops[..|ops| - 1], topic, subscriber)
      + Got(After(ops[..|ops| - 1]), ops[|ops| - 1], topic, subscriber)
  }

  /** The messages published on a topic, in order. */
  function Published(ops: seq<Op>, topic: string): seq<Message> {
    if ops == [] then []
    else
      Published(ops[..|ops| - 1], topic)
      + match ops[|ops| - 1]
        case Publish(m) => if m.topic == topic then [m] else []
        case Poll(_, _) => []
  }

  /** The log of a topic is what was published on it. */
  lemma {:induction false} LogIsPublished(ops: seq<Op>, topic: string)
    ensures Log(After(ops), topic) == Published(ops, topic)
  {
    if ops != [] {
      LogIsPublished(ops[..|ops| - 1], topic);
    }
  }

  /** One operation extends the deliveries to the new offset. */
  lemma DeliveryStep(b: Board, op: Op, topic: string, subscriber: string)
    requires Offset(b, topic, subscriber) <= |Log(b, topic)|
    ensures var log := Log(b, topic);
      var k, k' := Offset(b, topic, subscriber), Offset(Next(b, op), topic, subscriber);
      && k' <= |log| && log[..k] + Got(b, op, topic, subscriber) == log[..k']
  {
    var log, k := Log(b, topic), Offset(b, topic, subscriber);
    if op == Poll(topic, subscriber) {
      assert log[..k] + log[k..] == log[..|log|];
    } else {
      assert log[..k] + [] == log[..k];
      if op.Poll? { SubscribersIndependent(b, op, topic, subscriber); }
    }
  }

  /** Exactly once and in order: deliveries are the published messages up to the offset. */
  lemma {:induction false} DeliveredExactlyOnce(ops: seq<Op>, topic: string, subscriber: string)
    ensures var k := Offset(After(ops), topic, subscriber);
      k <= |Published(ops, topic)| && Delivered(ops, topic, subscriber) == Published(ops, topic)[..k]
  {
    LogIsPublished(ops, topic);
    if ops != [] {
      var front, op := ops[..|ops| - 1], ops[|ops| - 1];
      DeliveredExactlyOnce(front, topic, subscriber);
      LogIsPublished(front, topic);
      DeliveryStep(After(front), op, topic, subscriber);
    }
  }

  lemma {:induction false} PublishedGrows(ops: seq<Op>, n: nat, topic: string)
    requires n <= |ops|
    ensures Published(ops[..n], topic) <= Published(ops, topic)
  {
    if n == |ops| {
      assert ops[..n] == ops;
    } else {
      PublishedGrows(ops[..|ops| - 1], n, topic);
      assert ops[..|ops| - 1][..n] == ops[..n];
    }
  }

  lemma {:induction false} DeliveredGrows(ops: seq<Op>, n: nat, topic: string, subscriber: string)
    requires n <= |ops|
    ensures Delivered(ops[..n], topic, subscriber) <= Delivered(ops, topic, subscriber)
  {
    if n == |ops| {
      assert ops[..n] == ops;
    } else {
      DeliveredGrows(ops[..|ops| - 1], n, topic, subscriber);
      assert ops[..|ops| - 1][..n] == ops[..n];
    }
  }

  /** Up to operation `n` all that was then published has been delivered, and after it only what was published since. */
  ghost predicate OnlyNewer(ops: seq<Op>, n: nat, topic: string, subscriber: string)
    requires n < |ops|
  {
    var soFar, all := Delivered(ops[..n + 1], topic, subscriber), Delivered(ops, topic, subscriber);
    var published, k := Published(ops, topic), Offset(After(ops), topic, subscriber);
    && soFar <= all && soFar == Published(ops[..n], topic)
    && |soFar| <= k <= |published| && all[|soFar|..] == published[|soFar|..k]
  }

  /** After a poll, whatever became of it, the subscriber is only ever handed messages published since. */
  lemma NeverDeliveredAgain(ops: seq<Op>, n: nat, topic: string, subscriber: string)
    requires n < |ops| && ops[n] == Poll(topic, subscriber)
    ensures OnlyNewer(ops, n, topic, subscriber)
  {
    assert ops[..n + 1][..n] == ops[..n];
    LogIsPublished(ops[..n], topic);
    DeliveredExactlyOnce(ops[..n + 1], topic, subscriber);
    PublishedGrows(ops[..n + 1], n, topic);
    DeliveredGrows(ops, n + 1, topic, subscriber);
    DeliveredExactlyOnce(ops, topic, subscriber);
  }

  /** Polls by other subscribers or on other topics change nothing a subscriber will see. */
  lemma SubscribersIndependent(b: Board, op: Op, topic: string, subscriber: string)
    requires op.Poll? && (op.topic != topic || op.subscriber != subscriber)
    ensures Offset(Next(b, op), topic, subscriber) == Offset(b, topic, subscriber)
    ensures Log(Next(b, op), topic) == Log(b, topic)
    ensures Got(b, op, topic, subscriber) == []
  {
  }

  // ----- the object -----

  class Blackboard {
    var topics: map<string, seq<Message>>
    var offsets: map<string, map<string, nat>>
    var total: int
    var avoidedCopy: int

    ghost function Value(): Board
      reads this
    {
      Board(topics, offsets, total, avoidedCopy)
    }

    constructor ()
      ensures Value() == EMPTY_BOARD
    {
      topics, offsets, total, avoidedCopy := map[], map[], 0, 0;
    }

    method Publish(topic: string, publisher: string, pageId: string, sizeBytes: int, ipcMode: string)
      returns (metric: Metric)
      modifies this
      ensures var m := Message(topic, publisher, pageId, if sizeBytes > 0 then sizeBytes else 0,
                               if ipcMode != "" then ipcMode else "page-reference");
        && Value() == PublishStep(old(Value()), m)
        && metric == Metric(topic, total, 0, |Log(Value(), topic)|, m.sizeBytes, m.ipcMode)
    {
      var size := sizeBytes;
      if size < 0 {
        size := 0;
      }
      var mode := ipcMode;
      if mode == "" {
        mode := "page-reference";
      }
      var message := Message(topic, publisher, pageId, size, mode);
      var log := if topic in topics then topics[topic] else [];
      topics := topics[topic := log + [message]];
      total := total + 1;
      avoidedCopy := avoidedCopy + size;
      metric := Metric(topic, total, 0, |topics[topic]|, size, mode);
    }

    method Poll(topic: string, subscriber: string) returns (delivered: seq<Message>, metric: Metric)
      modifies this`offsets
      ensures (Value(), delivered) == PollStep(old(Value()), topic, subscriber)
      ensures metric == Metric(topic, total, |delivered|, |Log(Value(), topic)|, SizeOf(delivered),
                               if delivered == [] then "" else delivered[|delivered| - 1].ipcMode)
    {
      var messages := if topic in topics then topics[topic] else [];
      ghost var inner := if topic in offsets then offsets[topic] else map[];
      if topic !in offsets {
        offsets := offsets[topic := map[]];
      }
      var start := if subscriber in offsets[topic] then offsets[topic][subscriber] else 0;
      if start > |messages| {
        start := |messages|;
      }
      delivered := messages[start..];
      var moved: map<string, nat> := offsets[topic][subscriber := |messages|];
      offsets := offsets[topic := moved];
      assert offsets == old(offsets)[topic := inner[subscriber := |messages|]];
      var avoided := 0;
      for i := 0 to |delivered|
        invariant avoided == SizeOf(delivered[..i])
      {
        assert delivered[..i + 1][..i] == delivered[..i];
        avoided := avoided + delivered[i].sizeBytes;
      }
      assert delivered[..|delivered|] == delivered;
      var mode := if |delivered| > 0 then delivered[|delivered| - 1].ipcMode else "";
      metric := Metric(topic, total, |delivered|, |messages|, avoided, mode);
    }

    /** Over all topics: how many messages there are, and how many bytes were handed over by reference. */
    method Metrics() returns (metric: Metric)
      requires Consistent(Value())
      ensures metric.total == metric.depth == Sum(Depths(Value())) && metric.avoided == Sum(TopicSizes(Value()))
      ensures metric.topic == "" && metric.delivered == 0 && metric.ipcMode == ""
    {
      metric := Metric("", total, 0, total, avoidedCopy, "");
    }
  }
}
