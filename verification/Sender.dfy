// The sending half of WebSocketTransport: the queue and its drain loop, cut at every await
// (packages/core/src/transport/websocket/index.ts, store.ts and packages/core/src/utils/retry.ts).

module Sender {
  import opened Relay

  const MAX_RETRY_ATTEMPTS := 5

  datatype Item = Item(channel: string, payload: string)

  // Where a drain loop is suspended. `landed` records whether the attempt under way has reached the relay.
  datatype Phase =
    | ReadingNonce(item: nat)
    | WritingNonce(item: nat, nonce: nat)
    | Publishing(item: nat, nonce: nat, attempt: nat, landed: bool)
    | BackingOff(item: nat, nonce: nat, attempt: nat)

  datatype Conn = Disconnected | Connecting | Connected

  // The promise of publish(): sent (true), not sent (false), rejected, or gone with its process.
  datatype Outcome = Pending | Sent | NotSent | Rejected | Lost

  // `items` and `outcomes` list every publish call made so far and `nonceOf` the nonces persisted for
  // them; the queue and the phases name items by their position there. `counters` is the persisted
  // nonce record of each channel: only it survives a crash.
  datatype Sender = Sender(
    items: seq<Item>, outcomes: seq<Outcome>, queue: seq<nat>, processing: bool, conn: Conn,
    drains: seq<Phase>, counters: map<string, nat>, nonceOf: map<nat, nat>)

  const NEW := Sender([], [], [], false, Disconnected, [], map[], map[])

  datatype Event =
    | PublishCalled(channel: string, payload: string)
    | ConnectCalled
    | DisconnectCalled
    | ConnectingSeen
    | ConnectedSeen
    | DisconnectedSeen
    | SubscribedSeen
    | Landed(drain: nat)                    // the attempt under way reaches the relay
    | Resumed(drain: nat)                   // the awaited call succeeds
    | Failed(drain: nat, persisted: bool)   // it rejects; a store write may still have taken effect
    | Crashed                               // the process restarts from the same store

  function Counter(s: Sender, channel: string): nat {
    if channel in s.counters then s.counters[channel] else 0
  }

  // ---- The steps of the source ----

  function Settle(outcomes: seq<Outcome>, i: nat, to: Outcome): seq<Outcome> {
    if i < |outcomes| && outcomes[i].Pending? then outcomes[i := to] else outcomes
  }

  function SettleAll(outcomes: seq<Outcome>, queue: seq<nat>): (r: seq<Outcome>)
    ensures |r| == |outcomes|
    ensures forall i :: 0 <= i < |outcomes| ==>
      r[i] == if i in queue && outcomes[i].Pending? then NotSent else outcomes[i]
  {
    if queue == [] then outcomes
    else Settle(SettleAll(outcomes, queue[..|queue| - 1]), queue[|queue| - 1], NotSent)
  }

  // The head of the while loop: peek, and start processing with the read of the nonce record.
  function LoopHead(s: Sender): Sender {
    if s.queue == [] then s.(processing := false)
    else s.(drains := s.drains + [ReadingNonce(s.queue[0])])
  }

  // _processQueue
  function ProcessQueue(s: Sender): Sender {
    if s.processing || !s.conn.Connected? then s else LoopHead(s.(processing := true))
  }

  function Without(drains: seq<Phase>, d: nat): seq<Phase>
    requires d < |drains|
  {
    drains[..d] + drains[d + 1..]
  }

  // The item is done with: shift whatever is at the head, settle, go round the loop.
  function Finish(s: Sender, d: nat, to: Outcome): Sender
    requires d < |s.drains|
  {
    LoopHead(s.(drains := Without(s.drains, d),
                queue := if s.queue == [] then [] else s.queue[1..],
                outcomes := Settle(s.outcomes, s.drains[d].item, to)))
  }

  function ChannelOf(s: Sender, i: nat): string {
    if i < |s.items| then s.items[i].channel else ""
  }

  function Resume(s: Sender, d: nat): Sender
    requires d < |s.drains|
  {
    match s.drains[d]
    case ReadingNonce(i) => s.(drains := s.drains[d := WritingNonce(i, Counter(s, ChannelOf(s, i)) + 1)])
    case WritingNonce(i, n) =>
      s.(counters := s.counters[ChannelOf(s, i) := n], nonceOf := s.nonceOf[i := n],
         drains := s.drains[d := Publishing(i, n, 0, false)])
    case Publishing(i, n, k, landed) => if landed then Finish(s, d, Sent) else s
    case BackingOff(i, n, k) => s.(drains := s.drains[d := Publishing(i, n, k + 1, false)])
  }

  function Fail(s: Sender, d: nat, persisted: bool): Sender
    requires d < |s.drains|
  {
    match s.drains[d]
    case ReadingNonce(i) => Finish(s, d, Rejected)
    case WritingNonce(i, n) =>
      Finish(if persisted then s.(counters := s.counters[ChannelOf(s, i) := n]) else s, d, Rejected)
    case Publishing(i, n, k, landed) =>
      if k == MAX_RETRY_ATTEMPTS - 1 then Finish(s, d, Rejected)
      else s.(drains := s.drains[d := BackingOff(i, n, k)])
    case BackingOff(i, n, k) => s   // a timer does not fail
  }

  function Land(s: Sender, d: nat): Sender
    requires d < |s.drains|
  {
    if s.drains[d].Publishing? then s.(drains := s.drains[d := s.drains[d].(landed := true)]) else s
  }

  // The published item joins the end of the queue, before the loop is woken.
  function Enqueue(s: Sender, item: Item): Sender {
    s.(items := s.items + [item], outcomes := s.outcomes + [Pending], queue := s.queue + [|s.items|])
  }

  function Publish(s: Sender, item: Item): Sender { ProcessQueue(Enqueue(s, item)) }

  function Disconnect(s: Sender): Sender {
    s.(outcomes := SettleAll(s.outcomes, s.queue), queue := [])
  }

  function Crash(s: Sender): Sender {
    s.(queue := [], processing := false, conn := Disconnected, drains := [],
       outcomes := seq(|s.outcomes|, i requires 0 <= i < |s.outcomes| => if s.outcomes[i].Pending? then Lost else s.outcomes[i]))
  }

  // clear(channel) forgets the channel's nonce record, and with it what was numbered from that record.
  function Clear(s: Sender, channel: string): Sender {
    s.(counters := s.counters - {channel},
       nonceOf := map i | i in s.nonceOf && ChannelOf(s, i) != channel :: s.nonceOf[i])
  }

  function Step(s: Sender, ev: Event): Sender {
    match ev
    case PublishCalled(channel, payload) => Publish(s, Item(channel, payload))
    case ConnectCalled => if s.conn.Disconnected? then s.(conn := Connecting) else s
    case DisconnectCalled => Disconnect(s)
    case ConnectingSeen => s.(conn := Connecting)
    case ConnectedSeen => ProcessQueue(s.(conn := Connected))
    case DisconnectedSeen => s.(conn := Disconnected)
    case SubscribedSeen => ProcessQueue(s)
    case Landed(d) => if d < |s.drains| then Land(s, d) else s
    case Resumed(d) => if d < |s.drains| then Resume(s, d) else s
    case Failed(d, persisted) => if d < |s.drains| then Fail(s, d, persisted) else s
    case Crashed => Crash(s)
  }

  // ---- Single drain, no lost wake-up ----

  // At most one drain loop exists, the flag says whether one does, and a connected transport
  // never sits on a non-empty queue without one.
  predicate SingleDrain(s: Sender) {
    && |s.drains| <= 1
    && (s.processing <==> |s.drains| == 1)
    && (s.conn.Connected? && s.queue != [] ==> s.processing)
  }

  lemma FinishKeepsSingleDrain(s: Sender, to: Outcome)
    requires SingleDrain(s) && |s.drains| == 1
    ensures SingleDrain(Finish(s, 0, to))
  {
    assert Without(s.drains, 0) == [];
  }

  lemma ResumeKeepsSingleDrain(s: Sender)
    requires SingleDrain(s) && |s.drains| == 1
    ensures SingleDrain(Resume(s, 0))
  {
    if s.drains[0].Publishing? { FinishKeepsSingleDrain(s, Sent); }
  }

  lemma FailKeepsSingleDrain(s: Sender, persisted: bool)
    requires SingleDrain(s) && |s.drains| == 1
    ensures SingleDrain(Fail(s, 0, persisted))
  {
    match s.drains[0]
    case WritingNonce(i, n) =>
      FinishKeepsSingleDrain(if persisted then s.(counters := s.counters[ChannelOf(s, i) := n]) else s, Rejected);
    case _ => FinishKeepsSingleDrain(s, Rejected);
  }

  lemma StepKeepsSingleDrain(s: Sender, ev: Event)
    requires SingleDrain(s)
    ensures SingleDrain(Step(s, ev))
  {
    match ev
    case Resumed(d) => if d < |s.drains| { ResumeKeepsSingleDrain(s); }
    case Failed(d, persisted) => if d < |s.drains| { FailKeepsSingleDrain(s, persisted); }
    case _ =>
  }

  // ---- Queue order and nonces ----

  predicate Increasing(queue: seq<nat>) { forall i, j :: 0 <= i < j < |queue| ==> queue[i] < queue[j] }

  // Items wait in the order they were published.
  predicate QueueShape(s: Sender) {
    && |s.outcomes| == |s.items|
    && |s.drains| <= 1
    && Increasing(s.queue)
    && (forall k :: 0 <= k < |s.queue| ==> s.queue[k] < |s.items|)
    && (forall i :: i in s.nonceOf ==> i < |s.items|)
  }

  // Nonces have gone to earlier items only, and none to the item in hand before its own.
  predicate InHand(s: Sender, p: Phase) {
    && p.item < |s.items|
    && (s.queue != [] ==> p.item <= s.queue[0])
    && (forall i :: i in s.nonceOf ==> i <= p.item)
    && (p.ReadingNonce? || p.WritingNonce? ==> p.item !in s.nonceOf)
    && (p.WritingNonce? ==> p.nonce > Counter(s, s.items[p.item].channel))
    && (p.Publishing? || p.BackingOff? ==> p.item in s.nonceOf && s.nonceOf[p.item] == p.nonce)
    && (p.Publishing? ==> p.attempt < MAX_RETRY_ATTEMPTS)
    && (p.BackingOff? ==> p.attempt < MAX_RETRY_ATTEMPTS - 1)
  }

  predicate Idle(s: Sender) {
    s.drains == [] && (s.queue != [] ==> forall i :: i in s.nonceOf ==> i < s.queue[0])
  }

  predicate QueueOrder(s: Sender) {
    QueueShape(s) && (Idle(s) || (|s.drains| == 1 && InHand(s, s.drains[0])))
  }

  // Nonces are positive, covered by the persisted counter, and follow the order of publication.
  predicate Numbered(s: Sender) {
    && (forall i :: i in s.nonceOf && i < |s.items| ==> 1 <= s.nonceOf[i] <= Counter(s, s.items[i].channel))
    && (forall i, j :: i in s.nonceOf && j in s.nonceOf && i < j < |s.items| && s.items[i].channel == s.items[j].channel
          ==> s.nonceOf[i] < s.nonceOf[j])
  }

  lemma LoopHeadKeepsQueueOrder(s: Sender)
    requires QueueShape(s) && Idle(s)
    ensures QueueOrder(LoopHead(s))
  {
  }

  lemma ShiftKeepsIncreasing(queue: seq<nat>)
    requires Increasing(queue) && queue != []
    ensures Increasing(queue[1..])
    ensures |queue| > 1 ==> queue[0] < queue[1..][0]
  {
  }

  lemma FinishKeepsQueueOrder(s: Sender, to: Outcome)
    requires QueueShape(s) && |s.drains| == 1
    requires s.drains[0].item < |s.items| && (s.queue != [] ==> s.drains[0].item <= s.queue[0])
    requires forall i :: i in s.nonceOf ==> i <= s.drains[0].item
    ensures QueueOrder(Finish(s, 0, to))
  {
    var rest := if s.queue == [] then [] else s.queue[1..];
    if s.queue != [] { ShiftKeepsIncreasing(s.queue); }
    var outcomes := Settle(s.outcomes, s.drains[0].item, to);
    var s' := Sender(s.items, outcomes, rest, s.processing, s.conn, [], s.counters, s.nonceOf);
    assert Without(s.drains, 0) == [];
    assert QueueShape(s') && Idle(s');
    LoopHeadKeepsQueueOrder(s');
  }

  // The item in hand is done with, whatever the counters have become.
  lemma FinishInHandKeepsQueueOrder(s: Sender, counters: map<string, nat>, to: Outcome)
    requires QueueOrder(s) && |s.drains| == 1
    ensures QueueOrder(Finish(s.(counters := counters), 0, to))
  {
    assert InHand(s, s.drains[0]);
    FinishKeepsQueueOrder(s.(counters := counters), to);
  }

  lemma ResumeKeepsQueueOrder(s: Sender)
    requires QueueOrder(s) && |s.drains| == 1
    ensures QueueOrder(Resume(s, 0))
  {
    if s.drains[0].Publishing? && s.drains[0].landed { FinishInHandKeepsQueueOrder(s, s.counters, Sent); }
  }

  lemma BackOffKeepsQueueOrder(s: Sender)
    requires QueueOrder(s) && |s.drains| == 1 && s.drains[0].Publishing? && s.drains[0].attempt < MAX_RETRY_ATTEMPTS - 1
    ensures var p := s.drains[0]; QueueOrder(s.(drains := s.drains[0 := BackingOff(p.item, p.nonce, p.attempt)]))
  {
    var p := s.drains[0];
    assert InHand(s.(drains := [BackingOff(p.item, p.nonce, p.attempt)]), BackingOff(p.item, p.nonce, p.attempt));
  }

  lemma FailKeepsQueueOrder(s: Sender, persisted: bool)
    requires QueueOrder(s) && |s.drains| == 1
    ensures QueueOrder(Fail(s, 0, persisted))
  {
    match s.drains[0]
    case ReadingNonce(i) => FinishInHandKeepsQueueOrder(s, s.counters, Rejected);
    case WritingNonce(i, n) =>
      FinishInHandKeepsQueueOrder(s, if persisted then s.counters[ChannelOf(s, i) := n] else s.counters, Rejected);
    case Publishing(i, n, k, landed) =>
      if k == MAX_RETRY_ATTEMPTS - 1 { FinishInHandKeepsQueueOrder(s, s.counters, Rejected); } else { BackOffKeepsQueueOrder(s); }
    case BackingOff(i, n, k) =>
  }

  lemma EnqueueKeepsShape(s: Sender, item: Item)
    requires QueueShape(s)
    ensures QueueShape(Enqueue(s, item))
  {
    var queue := s.queue + [|s.items|];
    assert forall k :: 0 <= k < |s.queue| ==> queue[k] == s.queue[k];
  }

  lemma EnqueueKeepsQueueOrder(s: Sender, item: Item)
    requires QueueOrder(s)
    ensures QueueOrder(Enqueue(s, item))
  {
    EnqueueKeepsShape(s, item);
    var s' := Enqueue(s, item);
    if |s.drains| == 1 {
      assert InHand(s', s'.drains[0]);
    } else {
      assert Idle(s');
    }
  }

  lemma ProcessQueueKeepsQueueOrder(s: Sender)
    requires QueueOrder(s) && (s.processing <==> |s.drains| == 1)
    ensures QueueOrder(ProcessQueue(s))
  {
    if !s.processing && s.conn.Connected? { LoopHeadKeepsQueueOrder(s.(processing := true)); }
  }

  lemma PublishKeepsQueueOrder(s: Sender, item: Item)
    requires QueueOrder(s) && SingleDrain(s)
    ensures QueueOrder(Publish(s, item))
  {
    EnqueueKeepsQueueOrder(s, item);
    ProcessQueueKeepsQueueOrder(Enqueue(s, item));
  }

  lemma ConnKeepsQueueOrder(s: Sender, conn: Conn)
    requires QueueOrder(s)
    ensures QueueOrder(s.(conn := conn))
  {
  }

  lemma DisconnectKeepsQueueOrder(s: Sender)
    requires QueueOrder(s)
    ensures QueueOrder(Disconnect(s))
  {
  }

  lemma CrashKeepsQueueOrder(s: Sender)
    requires QueueOrder(s)
    ensures QueueOrder(Crash(s))
  {
  }

  lemma LandKeepsQueueOrder(s: Sender)
    requires QueueOrder(s) && |s.drains| == 1
    ensures QueueOrder(Land(s, 0))
  {
  }

  lemma StepKeepsQueueOrder(s: Sender, ev: Event)
    requires QueueOrder(s) && SingleDrain(s)
    ensures QueueOrder(Step(s, ev))
  {
    match ev
    case PublishCalled(channel, payload) => PublishKeepsQueueOrder(s, Item(channel, payload));
    case ConnectCalled => ConnKeepsQueueOrder(s, Connecting);
    case DisconnectCalled => DisconnectKeepsQueueOrder(s);
    case ConnectingSeen => ConnKeepsQueueOrder(s, Connecting);
    case ConnectedSeen =>
      ConnKeepsQueueOrder(s, Connected);
      ProcessQueueKeepsQueueOrder(s.(conn := Connected));
    case DisconnectedSeen => ConnKeepsQueueOrder(s, Disconnected);
    case SubscribedSeen => ProcessQueueKeepsQueueOrder(s);
    case Landed(d) => if d < |s.drains| { LandKeepsQueueOrder(s); }
    case Resumed(d) => if d < |s.drains| { ResumeKeepsQueueOrder(s); }
    case Failed(d, persisted) => if d < |s.drains| { FailKeepsQueueOrder(s, persisted); }
    case Crashed => CrashKeepsQueueOrder(s);
  }

  // What an event leaves alone: only a nonce write gives out a nonce or moves a counter.
  lemma ResumeFrame(s: Sender)
    requires |s.drains| == 1 && !s.drains[0].WritingNonce?
    ensures var s' := Resume(s, 0); s'.items == s.items && s'.counters == s.counters && s'.nonceOf == s.nonceOf
  {
  }

  lemma FinishFrame(s: Sender, to: Outcome)
    requires |s.drains| == 1
    ensures var s' := Finish(s, 0, to); s'.items == s.items && s'.counters == s.counters && s'.nonceOf == s.nonceOf
  {
  }

  lemma FailFrame(s: Sender, persisted: bool)
    requires |s.drains| == 1
    ensures var s' := Fail(s, 0, persisted);
      && s'.items == s.items && s'.nonceOf == s.nonceOf
      && s'.counters == if persisted && s.drains[0].WritingNonce?
                        then s.counters[ChannelOf(s, s.drains[0].item) := s.drains[0].nonce] else s.counters
  {
    match s.drains[0]
    case WritingNonce(i, n) =>
      FinishFrame(if persisted then s.(counters := s.counters[ChannelOf(s, i) := n]) else s, Rejected);
    case _ => FinishFrame(s, Rejected);
  }

  lemma OtherFrame(s: Sender, ev: Event)
    requires !ev.Resumed? && !ev.Failed?
    ensures var s' := Step(s, ev);
      && s'.counters == s.counters && s'.nonceOf == s.nonceOf
      && s'.items == (if ev.PublishCalled? then s.items + [Item(ev.channel, ev.payload)] else s.items)
      && s.items <= s'.items
  {
  }

  lemma SameNoncesKeepNumbered(s: Sender, s': Sender)
    requires Numbered(s) && s'.nonceOf == s.nonceOf && s'.counters == s.counters && s.items <= s'.items
    requires forall i :: i in s.nonceOf ==> i < |s.items|
    ensures Numbered(s')
  {
  }

  lemma RaisedCounterKeepsNumbered(s: Sender, channel: string, n: nat)
    requires Numbered(s) && n > Counter(s, channel)
    ensures Numbered(s.(counters := s.counters[channel := n]))
  {
  }

  lemma NewNonceKeepsNumbered(s: Sender, i: nat, n: nat)
    requires Numbered(s) && i < |s.items| && i !in s.nonceOf && (forall j :: j in s.nonceOf ==> j <= i)
    requires n > Counter(s, s.items[i].channel)
    ensures Numbered(s.(counters := s.counters[s.items[i].channel := n], nonceOf := s.nonceOf[i := n]))
  {
  }

  lemma FailKeepsNumbered(s: Sender, persisted: bool)
    requires QueueOrder(s) && Numbered(s) && |s.drains| == 1
    ensures Numbered(Fail(s, 0, persisted))
  {
    FailFrame(s, persisted);
    var p := s.drains[0];
    if persisted && p.WritingNonce? {
      RaisedCounterKeepsNumbered(s, ChannelOf(s, p.item), p.nonce);
      SameNoncesKeepNumbered(s.(counters := s.counters[ChannelOf(s, p.item) := p.nonce]), Fail(s, 0, persisted));
    } else {
      SameNoncesKeepNumbered(s, Fail(s, 0, persisted));
    }
  }

  lemma ResumeKeepsNumbered(s: Sender)
    requires QueueOrder(s) && Numbered(s) && |s.drains| == 1
    ensures Numbered(Resume(s, 0))
  {
    var p := s.drains[0];
    if p.WritingNonce? {
      NewNonceKeepsNumbered(s, p.item, p.nonce);
      var given := s.(counters := s.counters[s.items[p.item].channel := p.nonce], nonceOf := s.nonceOf[p.item := p.nonce]);
      SameNoncesKeepNumbered(given, Resume(s, 0));
    } else {
      ResumeFrame(s);
      SameNoncesKeepNumbered(s, Resume(s, 0));
    }
  }

  lemma OtherKeepsNumbered(s: Sender, ev: Event)
    requires QueueOrder(s) && Numbered(s) && !ev.Resumed? && !ev.Failed?
    ensures Numbered(Step(s, ev))
  {
    OtherFrame(s, ev);
    SameNoncesKeepNumbered(s, Step(s, ev));
  }

  lemma ResumedKeepsNumbered(s: Sender, d: nat)
    requires QueueOrder(s) && Numbered(s)
    ensures Numbered(Step(s, Resumed(d)))
  {
    if d < |s.drains| { ResumeKeepsNumbered(s); }
  }

  lemma FailedKeepsNumbered(s: Sender, d: nat, persisted: bool)
    requires QueueOrder(s) && Numbered(s)
    ensures Numbered(Step(s, Failed(d, persisted)))
  {
    if d < |s.drains| { FailKeepsNumbered(s, persisted); }
  }

  lemma StepKeepsNumbered(s: Sender, ev: Event)
    requires QueueOrder(s) && Numbered(s)
    ensures Numbered(Step(s, ev))
  {
    match ev
    case Resumed(d) => ResumedKeepsNumbered(s, d);
    case Failed(d, persisted) => FailedKeepsNumbered(s, d, persisted);
    case _ => OtherKeepsNumbered(s, ev);
  }
}
