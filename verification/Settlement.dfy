// One sender and the relay: what a publish promise says about the log, and what the log says
// about the publish calls (packages/core/src/transport/websocket/index.ts).

module Settlement {
  import opened Relay
  import opened Sender

  type Logs = map<string, Log>

  function At(logs: Logs, channel: string): Log { if channel in logs then logs[channel] else [] }

  function Append(logs: Logs, channel: string, e: Entry): Logs { logs[channel := At(logs, channel) + [e]] }

  // The message published for item i.
  function FrameOf(c: string, s: Sender, i: nat): Entry
    requires i < |s.items| && i in s.nonceOf
  {
    Message(c, s.nonceOf[i], s.items[i].payload)
  }

  // The attempt under way reaches the relay with this event.
  predicate Lands(s: Sender, ev: Event) {
    ev.Landed? && ev.drain < |s.drains| && s.drains[ev.drain].Publishing? && !s.drains[ev.drain].landed
    && s.drains[ev.drain].item < |s.items|
  }

  function LogsAfter(c: string, s: Sender, logs: Logs, ev: Event): Logs {
    if Lands(s, ev)
    then
      var p := s.drains[ev.drain];
      Append(logs, s.items[p.item].channel, Message(c, p.nonce, s.items[p.item].payload))
    else logs
  }

  // ---- Every entry of a sender comes from one of its publish calls ----

  predicate Issued(c: string, s: Sender, i: nat, channel: string, e: Entry) {
    i < |s.items| && i in s.nonceOf && s.items[i].channel == channel && e == FrameOf(c, s, i)
  }

  predicate From(c: string, e: Entry) { e.Message? && e.clientId == c }

  ghost predicate Traced(c: string, s: Sender, logs: Logs) {
    forall channel, k {:trigger At(logs, channel)[k]} :: 0 <= k < |At(logs, channel)| && From(c, At(logs, channel)[k])
      ==> exists i :: Issued(c, s, i, channel, At(logs, channel)[k])
  }

  /** No nonce of a channel is ever put on two different payloads. */
  lemma NonceHasOnePayload(c: string, s: Sender, logs: Logs, channel: string, j: nat, k: nat)
    requires Numbered(s) && Traced(c, s, logs)
    requires j < |At(logs, channel)| && k < |At(logs, channel)|
    requires From(c, At(logs, channel)[j]) && SameMessage(At(logs, channel)[j], At(logs, channel)[k])
    ensures At(logs, channel)[j] == At(logs, channel)[k]
  {
    var i1 :| Issued(c, s, i1, channel, At(logs, channel)[j]);
    var i2 :| Issued(c, s, i2, channel, At(logs, channel)[k]);
    assert s.nonceOf[i1] == s.nonceOf[i2];
  }

  // ---- What a settled promise means ----

  predicate InLog(c: string, s: Sender, logs: Logs, i: nat) {
    i < |s.items| && i in s.nonceOf && FrameOf(c, s, i) in At(logs, s.items[i].channel)
  }

  predicate SentIsLogged(c: string, s: Sender, logs: Logs) {
    && (forall i :: 0 <= i < |s.outcomes| && s.outcomes[i].Sent? ==> InLog(c, s, logs, i))
    && (forall d :: 0 <= d < |s.drains| && s.drains[d].Publishing? && s.drains[d].landed ==> InLog(c, s, logs, s.drains[d].item))
  }

  ghost predicate SenderInv(c: string, s: Sender, logs: Logs) {
    SingleDrain(s) && QueueOrder(s) && Numbered(s) && Traced(c, s, logs) && SentIsLogged(c, s, logs)
  }

  // The state only grows: items, their nonces and the log.
  ghost predicate Grows(s: Sender, s': Sender, logs: Logs, logs': Logs) {
    && Keeps(s, s')
    && (forall channel :: At(logs, channel) <= At(logs', channel))
  }

  lemma GrowsKeepsInLog(c: string, s: Sender, s': Sender, logs: Logs, logs': Logs, i: nat)
    requires Grows(s, s', logs, logs') && InLog(c, s, logs, i)
    ensures InLog(c, s', logs', i)
  {
    var e, channel := FrameOf(c, s, i), s.items[i].channel;
    var k :| 0 <= k < |At(logs, channel)| && At(logs, channel)[k] == e;
    assert At(logs', channel)[k] == e;
  }

  lemma GrowsKeepsIssued(c: string, s: Sender, s': Sender, logs: Logs, logs': Logs, i: nat, channel: string, e: Entry)
    requires Grows(s, s', logs, logs') && Issued(c, s, i, channel, e)
    ensures Issued(c, s', i, channel, e)
  {
  }

  // An append of an issued frame, or of somebody else's entry.
  lemma AppendKeepsTraced(c: string, s: Sender, logs: Logs, channel: string, e: Entry)
    requires Traced(c, s, logs)
    requires From(c, e) ==> exists i :: Issued(c, s, i, channel, e)
    ensures Traced(c, s, Append(logs, channel, e))
  {
    var logs' := Append(logs, channel, e);
    forall ch, k {:trigger At(logs', ch)[k]} | 0 <= k < |At(logs', ch)| && From(c, At(logs', ch)[k])
      ensures exists i :: Issued(c, s, i, ch, At(logs', ch)[k])
    {
      if ch != channel || k < |At(logs, ch)| {
        assert At(logs', ch)[k] == At(logs, ch)[k];
      }
    }
  }

  lemma SameLogsKeepTraced(c: string, s: Sender, s': Sender, logs: Logs)
    requires Traced(c, s, logs) && Grows(s, s', logs, logs)
    ensures Traced(c, s', logs)
  {
    forall ch, k {:trigger At(logs, ch)[k]} | 0 <= k < |At(logs, ch)| && From(c, At(logs, ch)[k])
      ensures exists i :: Issued(c, s', i, ch, At(logs, ch)[k])
    {
      var i :| Issued(c, s, i, ch, At(logs, ch)[k]);
      GrowsKeepsIssued(c, s, s', logs, logs, i, ch, At(logs, ch)[k]);
    }
  }

  predicate Keeps(s: Sender, s': Sender) {
    s.items <= s'.items && forall i :: i in s.nonceOf ==> i in s'.nonceOf && s'.nonceOf[i] == s.nonceOf[i]
  }

  lemma ResumeGrows(s: Sender, d: nat)
    requires |s.drains| <= 1 && (|s.drains| == 1 && s.drains[0].WritingNonce? ==> s.drains[0].item !in s.nonceOf)
    ensures Keeps(s, Step(s, Resumed(d)))
  {
    if d < |s.drains| && !s.drains[0].WritingNonce? { ResumeFrame(s); }
  }

  lemma FailGrows(s: Sender, d: nat, persisted: bool)
    requires |s.drains| <= 1
    ensures Keeps(s, Step(s, Failed(d, persisted)))
  {
    if d < |s.drains| { FailFrame(s, persisted); }
  }

  lemma OtherGrows(s: Sender, ev: Event)
    requires !ev.Resumed? && !ev.Failed?
    ensures Keeps(s, Step(s, ev))
  {
    OtherFrame(s, ev);
  }

  lemma WritingIsFirst(s: Sender)
    requires QueueOrder(s)
    ensures |s.drains| <= 1 && (|s.drains| == 1 && s.drains[0].WritingNonce? ==> s.drains[0].item !in s.nonceOf)
  {
  }

  lemma StepGrows(s: Sender, ev: Event)
    requires QueueOrder(s)
    ensures Keeps(s, Step(s, ev))
  {
    WritingIsFirst(s);
    match ev
    case Resumed(d) => ResumeGrows(s, d);
    case Failed(d, persisted) => FailGrows(s, d, persisted);
    case _ => OtherGrows(s, ev);
  }

  lemma ResumeOutcomes(s: Sender)
    requires |s.drains| == 1
    ensures Resume(s, 0).outcomes
            == if s.drains[0].Publishing? && s.drains[0].landed then Settle(s.outcomes, s.drains[0].item, Sent) else s.outcomes
  {
  }

  lemma FailOutcomes(s: Sender, persisted: bool)
    requires |s.drains| == 1
    ensures Fail(s, 0, persisted).outcomes
            == if FailsForGood(s.drains[0]) then Settle(s.outcomes, s.drains[0].item, Rejected) else s.outcomes
  {
  }

  // A failure here ends the item: a store access, or the fifth attempt.
  predicate FailsForGood(p: Phase) { p.ReadingNonce? || p.WritingNonce? || (p.Publishing? && p.attempt == 4) }

  // An event that changes promise i has the right to.
  predicate Settles(s: Sender, ev: Event, i: nat, to: Outcome) {
    match to
    case Pending => false
    case Sent =>
      && ev.Resumed? && ev.drain < |s.drains| && s.drains[ev.drain].item == i
      && s.drains[ev.drain].Publishing? && s.drains[ev.drain].landed
    case NotSent => ev.DisconnectCalled? && i in s.queue
    case Rejected => ev.Failed? && ev.drain < |s.drains| && s.drains[ev.drain].item == i && FailsForGood(s.drains[ev.drain])
    case Lost => ev.Crashed?
  }

  lemma OtherSources(s: Sender, ev: Event, i: nat)
    requires !ev.Resumed? && !ev.Failed? && i < |s.outcomes|
    ensures var s' := Step(s, ev);
      && i < |s'.outcomes|
      && (s'.outcomes[i] != s.outcomes[i] ==> s.outcomes[i].Pending? && Settles(s, ev, i, s'.outcomes[i]))
      && (ev.Crashed? ==> !s'.outcomes[i].Pending?)
  {
  }

  /** Which promises an event settles, and how. A settled promise stays as it is. */
  lemma OutcomeSources(s: Sender, ev: Event, i: nat)
    requires |s.drains| <= 1 && i < |s.outcomes|
    ensures var s' := Step(s, ev);
      && i < |s'.outcomes|
      && (s'.outcomes[i] != s.outcomes[i] ==> s.outcomes[i].Pending? && Settles(s, ev, i, s'.outcomes[i]))
      && (ev.Crashed? ==> !s'.outcomes[i].Pending?)
  {
    match ev
    case Resumed(d) => if d < |s.drains| { ResumeOutcomes(s); }
    case Failed(d, persisted) => if d < |s.drains| { FailOutcomes(s, persisted); }
    case _ => OtherSources(s, ev, i);
  }

  // A landed attempt after an event is the one in hand before, landed already or just now.
  ghost predicate LandedFrom(s: Sender, ev: Event, s': Sender) {
    forall d :: 0 <= d < |s'.drains| && s'.drains[d].Publishing? && s'.drains[d].landed ==>
      && d == 0 && |s.drains| == 1 && s.drains[0].Publishing? && s'.drains[0].item == s.drains[0].item
      && (s.drains[0].landed || Lands(s, ev))
  }

  lemma ResumeLandsNothing(s: Sender, ev: Event)
    requires |s.drains| == 1
    ensures LandedFrom(s, ev, Resume(s, 0))
  {
    assert Without(s.drains, 0) == [];
  }

  lemma FailLandsNothing(s: Sender, ev: Event, persisted: bool)
    requires |s.drains| == 1
    ensures LandedFrom(s, ev, Fail(s, 0, persisted))
  {
    assert Without(s.drains, 0) == [];
  }

  // Waking the queue starts at most a read.
  lemma WakeLandsNothing(s: Sender, ev: Event, s': Sender)
    requires |s.drains| <= 1 && s'.drains == s.drains && (s'.processing <==> |s.drains| == 1)
    ensures LandedFrom(s, ev, ProcessQueue(s'))
  {
  }

  lemma LandLandsInHand(s: Sender, ev: Event)
    requires QueueOrder(s) && |s.drains| == 1 && ev == Landed(0)
    ensures LandedFrom(s, ev, Land(s, 0))
  {
  }

  lemma LandedSources(s: Sender, ev: Event)
    requires QueueOrder(s) && SingleDrain(s)
    ensures LandedFrom(s, ev, Step(s, ev))
  {
    match ev
    case PublishCalled(channel, payload) => WakeLandsNothing(s, ev, Enqueue(s, Item(channel, payload)));
    case ConnectedSeen => WakeLandsNothing(s, ev, s.(conn := Connected));
    case SubscribedSeen => WakeLandsNothing(s, ev, s);
    case Landed(d) => if d < |s.drains| { LandLandsInHand(s, ev); }
    case Resumed(d) => if d < |s.drains| { ResumeLandsNothing(s, ev); }
    case Failed(d, persisted) => if d < |s.drains| { FailLandsNothing(s, ev, persisted); }
    case _ =>
  }

  lemma StepGrowsAll(c: string, s: Sender, logs: Logs, ev: Event)
    requires QueueOrder(s)
    ensures Grows(s, Step(s, ev), logs, LogsAfter(c, s, logs, ev))
  {
    StepGrows(s, ev);
  }

  lemma NewOutcomePending(s: Sender, ev: Event, i: nat)
    requires |s.drains| <= 1 && |s.outcomes| <= i < |Step(s, ev).outcomes|
    ensures Step(s, ev).outcomes[i].Pending?
  {
    match ev
    case Resumed(d) => if d < |s.drains| { ResumeOutcomes(s); }
    case Failed(d, persisted) => if d < |s.drains| { FailOutcomes(s, persisted); }
    case _ =>
  }

  lemma SentStaysLogged(c: string, s: Sender, logs: Logs, ev: Event, i: nat)
    requires QueueOrder(s) && SentIsLogged(c, s, logs)
    requires i < |Step(s, ev).outcomes| && Step(s, ev).outcomes[i].Sent?
    ensures InLog(c, Step(s, ev), LogsAfter(c, s, logs, ev), i)
  {
    StepGrowsAll(c, s, logs, ev);
    if i < |s.outcomes| {
      OutcomeSources(s, ev, i);
      GrowsKeepsInLog(c, s, Step(s, ev), logs, LogsAfter(c, s, logs, ev), i);
    } else {
      NewOutcomePending(s, ev, i);
    }
  }

  lemma JustLanded(c: string, s: Sender, logs: Logs, ev: Event)
    requires QueueOrder(s) && Lands(s, ev)
    ensures InLog(c, s, LogsAfter(c, s, logs, ev), s.drains[0].item)
  {
    var p := s.drains[0];
    var channel := s.items[p.item].channel;
    assert At(LogsAfter(c, s, logs, ev), channel)[|At(logs, channel)|] == FrameOf(c, s, p.item);
  }

  lemma StepKeepsSentIsLogged(c: string, s: Sender, logs: Logs, ev: Event)
    requires SenderInv(c, s, logs)
    ensures SentIsLogged(c, Step(s, ev), LogsAfter(c, s, logs, ev))
  {
    var s', logs' := Step(s, ev), LogsAfter(c, s, logs, ev);
    forall i | 0 <= i < |s'.outcomes| && s'.outcomes[i].Sent? ensures InLog(c, s', logs', i) {
      SentStaysLogged(c, s, logs, ev, i);
    }
    LandedSources(s, ev);
    forall d | 0 <= d < |s'.drains| && s'.drains[d].Publishing? && s'.drains[d].landed
      ensures InLog(c, s', logs', s'.drains[d].item)
    {
      StepGrowsAll(c, s, logs, ev);
      if s.drains[0].landed {
        GrowsKeepsInLog(c, s, s', logs, logs', s.drains[0].item);
      } else {
        JustLanded(c, s, logs, ev);
        assert s'.items == s.items && s'.nonceOf == s.nonceOf;
      }
    }
  }

  lemma StepKeepsTraced(c: string, s: Sender, logs: Logs, ev: Event)
    requires SenderInv(c, s, logs)
    ensures Traced(c, Step(s, ev), LogsAfter(c, s, logs, ev))
  {
    var logs' := LogsAfter(c, s, logs, ev);
    if Lands(s, ev) {
      var p := s.drains[ev.drain];
      var e := Message(c, p.nonce, s.items[p.item].payload);
      assert Issued(c, s, p.item, s.items[p.item].channel, e);
      AppendKeepsTraced(c, s, logs, s.items[p.item].channel, e);
    }
    StepGrows(s, ev);
    SameLogsKeepTraced(c, s, Step(s, ev), logs');
  }

  /** Every event of the sender itself, at any await, keeps the invariant. */
  lemma StepKeepsSenderInv(c: string, s: Sender, logs: Logs, ev: Event)
    requires SenderInv(c, s, logs)
    ensures SenderInv(c, Step(s, ev), LogsAfter(c, s, logs, ev))
  {
    StepKeepsSingleDrain(s, ev);
    StepKeepsQueueOrder(s, ev);
    StepKeepsNumbered(s, ev);
    StepKeepsTraced(c, s, logs, ev);
    StepKeepsSentIsLogged(c, s, logs, ev);
  }

  /** So does anything else that happens in the channels: entries of other senders, malformed ones,
      and messages of this sender that arrive late or again. */
  lemma AppendKeepsSenderInv(c: string, s: Sender, logs: Logs, channel: string, e: Entry)
    requires SenderInv(c, s, logs)
    requires From(c, e) ==> exists i :: Issued(c, s, i, channel, e)
    ensures SenderInv(c, s, Append(logs, channel, e))
  {
    AppendKeepsTraced(c, s, logs, channel, e);
    var logs' := Append(logs, channel, e);
    forall i | InLog(c, s, logs, i) ensures InLog(c, s, logs', i) {
      GrowsKeepsInLog(c, s, s, logs, logs', i);
    }
  }

  // ---- Conservation ----

  // Pending exactly while queued, the item in hand is the head, and `false` means no nonce was ever spent.
  predicate Conserved(s: Sender) {
    && (forall i :: 0 <= i < |s.outcomes| ==> (s.outcomes[i].Pending? <==> i in s.queue))
    && (forall d :: 0 <= d < |s.drains| ==> s.queue != [] && s.queue[0] == s.drains[d].item)
    && (forall i :: 0 <= i < |s.outcomes| && s.outcomes[i].NotSent? ==> i !in s.nonceOf)
  }

  // disconnect() is called only when no item is in hand.
  predicate QuietDisconnect(s: Sender, ev: Event) { ev.DisconnectCalled? ==> s.drains == [] }

  lemma TailMembers(queue: seq<nat>)
    requires Increasing(queue) && queue != []
    ensures forall i: nat :: i in queue[1..] <==> i in queue && i != queue[0]
  {
    forall i: nat | i in queue && i != queue[0] ensures i in queue[1..] {
      var k :| 0 <= k < |queue| && queue[k] == i;
      assert queue[1..][k - 1] == i;
    }
  }

  lemma FinishKeepsConserved(s: Sender, to: Outcome)
    requires QueueShape(s) && Conserved(s) && |s.drains| == 1 && s.drains[0].item < |s.items|
    requires to.Sent? || to.Rejected?
    ensures Conserved(Finish(s, 0, to))
  {
    TailMembers(s.queue);
    assert Without(s.drains, 0) == [];
    assert s.queue[0] in s.queue;
  }

  lemma ResumeKeepsConserved(s: Sender)
    requires QueueOrder(s) && Conserved(s) && |s.drains| == 1
    ensures Conserved(Resume(s, 0))
  {
    var p := s.drains[0];
    assert s.queue[0] in s.queue;
    if p.Publishing? && p.landed { FinishKeepsConserved(s, Sent); }
  }

  lemma FailKeepsConserved(s: Sender, persisted: bool)
    requires QueueOrder(s) && Conserved(s) && |s.drains| == 1
    ensures Conserved(Fail(s, 0, persisted))
  {
    match s.drains[0]
    case ReadingNonce(i) => FinishKeepsConserved(s, Rejected);
    case WritingNonce(i, n) =>
      FinishKeepsConserved(if persisted then s.(counters := s.counters[ChannelOf(s, i) := n]) else s, Rejected);
    case Publishing(i, n, k, landed) => if k == MAX_RETRY_ATTEMPTS - 1 { FinishKeepsConserved(s, Rejected); }
    case BackingOff(i, n, k) =>
  }

  lemma PublishKeepsConserved(s: Sender, item: Item)
    requires QueueOrder(s) && SingleDrain(s) && Conserved(s)
    ensures Conserved(Publish(s, item))
  {
    var s' := Enqueue(s, item);
    forall i | 0 <= i < |s'.outcomes| ensures s'.outcomes[i].Pending? <==> i in s'.queue {
      if i < |s.outcomes| { assert s'.outcomes[i] == s.outcomes[i]; }
    }
    assert Conserved(s');
  }

  lemma DisconnectKeepsConserved(s: Sender)
    requires QueueOrder(s) && Conserved(s) && s.drains == []
    ensures Conserved(Disconnect(s))
  {
    forall i | i in s.queue ensures i !in s.nonceOf {
      var k :| 0 <= k < |s.queue| && s.queue[k] == i;
      assert s.queue[0] <= i;
    }
  }

  /** Conservation: in runs where disconnect() is never called with an item in hand, every publish
      call is at all times exactly one of queued, sent, not sent, rejected or lost to a crash. */
  lemma StepKeepsConserved(s: Sender, ev: Event)
    requires SingleDrain(s) && QueueOrder(s) && Conserved(s) && QuietDisconnect(s, ev)
    ensures Conserved(Step(s, ev))
  {
    match ev
    case PublishCalled(channel, payload) => PublishKeepsConserved(s, Item(channel, payload));
    case DisconnectCalled => DisconnectKeepsConserved(s);
    case Resumed(d) => if d < |s.drains| { ResumeKeepsConserved(s); }
    case Failed(d, persisted) => if d < |s.drains| { FailKeepsConserved(s, persisted); }
    case _ =>
  }

  /** `false` means the message never reached the relay: whatever the sender has in the channel
      was published for other calls. */
  lemma NotSentNeverLogged(c: string, s: Sender, logs: Logs, i: nat, k: nat)
    requires SenderInv(c, s, logs) && Conserved(s)
    requires i < |s.items| && s.outcomes[i].NotSent? && k < |At(logs, s.items[i].channel)|
    requires From(c, At(logs, s.items[i].channel)[k])
    ensures exists j :: j != i && Issued(c, s, j, s.items[i].channel, At(logs, s.items[i].channel)[k])
  {
    var j :| Issued(c, s, j, s.items[i].channel, At(logs, s.items[i].channel)[k]);
    assert j != i;
  }

  // ---- disconnect() with an item in hand ----

  function Run(s: Sender, evs: seq<Event>): Sender
    decreases |evs|
  {
    if evs == [] then s else Run(Step(s, evs[0]), evs[1..])
  }

  function RunLogs(c: string, s: Sender, logs: Logs, evs: seq<Event>): Logs
    decreases |evs|
  {
    if evs == [] then logs else RunLogs(c, Step(s, evs[0]), LogsAfter(c, s, logs, evs[0]), evs[1..])
  }

  predicate QuietRun(s: Sender, evs: seq<Event>)
    decreases |evs|
  {
    evs == [] || (QuietDisconnect(s, evs[0]) && QuietRun(Step(s, evs[0]), evs[1..]))
  }

  // A promise that resolved to false tells the truth.
  predicate HonestFalse(c: string, s: Sender, logs: Logs) {
    forall i :: 0 <= i < |s.outcomes| && s.outcomes[i].NotSent? ==> !InLog(c, s, logs, i)
  }

  lemma {:induction false} QuietRunIsHonest(c: string, s: Sender, logs: Logs, evs: seq<Event>)
    requires SenderInv(c, s, logs) && Conserved(s) && QuietRun(s, evs)
    ensures HonestFalse(c, Run(s, evs), RunLogs(c, s, logs, evs))
    decreases |evs|
  {
    if evs != [] {
      StepKeepsSenderInv(c, s, logs, evs[0]);
      StepKeepsConserved(s, evs[0]);
      QuietRunIsHonest(c, Step(s, evs[0]), LogsAfter(c, s, logs, evs[0]), evs[1..]);
    }
  }

  // The attempts go on after disconnect() has emptied the queue: next step towards the relay.
  function Onward(p: Phase): Event { if p.Publishing? then Landed(0) else Resumed(0) }

  function Distance(p: Phase): nat {
    match p
    case ReadingNonce(_) => 3
    case WritingNonce(_, _) => 2
    case BackingOff(_, _, _) => 2
    case Publishing(_, _, _, landed) => if landed then 0 else 1
  }

  lemma {:induction false} InHandReachesRelay(c: string, s: Sender, logs: Logs) returns (evs: seq<Event>)
    requires SenderInv(c, s, logs) && |s.drains| == 1
    ensures QuietRun(s, evs)
    ensures Run(s, evs).outcomes == s.outcomes
    ensures InLog(c, Run(s, evs), RunLogs(c, s, logs, evs), s.drains[0].item)
    ensures var s' := Run(s, evs);
      && s'.queue == s.queue && s'.items == s.items && s'.processing && |s'.drains| == 1
      && s'.drains[0].item == s.drains[0].item && s'.drains[0].Publishing? && s'.drains[0].landed
    decreases Distance(s.drains[0])
  {
    var p := s.drains[0];
    if p.Publishing? && p.landed {
      evs := [];
    } else {
      var ev := Onward(p);
      StepKeepsSenderInv(c, s, logs, ev);
      var s' := Step(s, ev);
      assert |s'.drains| == 1 && s'.drains[0].item == p.item && Distance(s'.drains[0]) < Distance(p);
      var rest := InHandReachesRelay(c, s', LogsAfter(c, s, logs, ev));
      evs := [ev] + rest;
      assert evs[1..] == rest;
    }
  }

  /** The exact condition on disconnect(): every later `false` is truthful, whatever happens next,
      if and only if no item was in hand when it was called. */
  lemma DisconnectHonestIff(c: string, s: Sender, logs: Logs)
    requires SenderInv(c, s, logs) && Conserved(s)
    ensures s.drains == [] <==>
      forall evs :: QuietRun(Disconnect(s), evs)
        ==> HonestFalse(c, Run(Disconnect(s), evs), RunLogs(c, Disconnect(s), logs, evs))
  {
    var s1 := Disconnect(s);
    StepKeepsSenderInv(c, s, logs, DisconnectCalled);
    assert LogsAfter(c, s, logs, DisconnectCalled) == logs;
    if s.drains == [] {
      DisconnectKeepsConserved(s);
      forall evs | QuietRun(s1, evs) ensures HonestFalse(c, Run(s1, evs), RunLogs(c, s1, logs, evs)) {
        QuietRunIsHonest(c, s1, logs, evs);
      }
    } else {
      var i := s.drains[0].item;
      assert s.queue[0] == i && i in s.queue && s1.outcomes[i].NotSent?;
      var evs := InHandReachesRelay(c, s1, logs);
      assert Run(s1, evs).outcomes[i].NotSent?;
    }
  }

  // A publish call whose promise nothing will ever settle.
  predicate Orphan(s: Sender, i: nat) {
    i < |s.outcomes| && s.outcomes[i].Pending? && i !in s.queue && (forall d :: 0 <= d < |s.drains| ==> s.drains[d].item != i)
  }

  lemma LoopHeadKeepsOrphan(s: Sender, i: nat)
    requires Orphan(s, i) && s.drains == []
    ensures Orphan(LoopHead(s), i)
  {
    if s.queue != [] { assert s.queue[0] in s.queue; }
  }

  lemma FinishKeepsOrphan(s: Sender, to: Outcome, i: nat)
    requires QueueShape(s) && |s.drains| == 1 && Orphan(s, i)
    ensures Orphan(Finish(s, 0, to), i)
  {
    if s.queue != [] { TailMembers(s.queue); }
    var rest := if s.queue == [] then [] else s.queue[1..];
    assert Without(s.drains, 0) == [];
    LoopHeadKeepsOrphan(s.(drains := [], queue := rest, outcomes := Settle(s.outcomes, s.drains[0].item, to)), i);
  }

  lemma ResumeKeepsOrphan(s: Sender, i: nat)
    requires QueueShape(s) && |s.drains| == 1 && Orphan(s, i)
    ensures Orphan(Resume(s, 0), i)
  {
    if s.drains[0].Publishing? && s.drains[0].landed { FinishKeepsOrphan(s, Sent, i); }
  }

  lemma FailKeepsOrphan(s: Sender, persisted: bool, i: nat)
    requires QueueShape(s) && |s.drains| == 1 && Orphan(s, i)
    ensures Orphan(Fail(s, 0, persisted), i)
  {
    match s.drains[0]
    case WritingNonce(j, n) =>
      FinishKeepsOrphan(if persisted then s.(counters := s.counters[ChannelOf(s, j) := n]) else s, Rejected, i);
    case _ => FinishKeepsOrphan(s, Rejected, i);
  }

  lemma PublishKeepsOrphan(s: Sender, item: Item, i: nat)
    requires QueueShape(s) && SingleDrain(s) && Orphan(s, i)
    ensures Orphan(Publish(s, item), i)
  {
    var s' := Enqueue(s, item);
    assert Orphan(s', i);
    if !s'.processing && s'.conn.Connected? { LoopHeadKeepsOrphan(s'.(processing := true), i); }
  }

  lemma StepKeepsOrphan(s: Sender, ev: Event, i: nat)
    requires QueueOrder(s) && SingleDrain(s) && Orphan(s, i) && !ev.Crashed?
    ensures Orphan(Step(s, ev), i)
  {
    match ev
    case PublishCalled(channel, payload) => PublishKeepsOrphan(s, Item(channel, payload), i);
    case Resumed(d) => if d < |s.drains| { ResumeKeepsOrphan(s, i); }
    case Failed(d, persisted) => if d < |s.drains| { FailKeepsOrphan(s, persisted, i); }
    case _ =>
  }

  lemma {:induction false} RunKeepsOrphan(s: Sender, evs: seq<Event>, i: nat)
    requires QueueOrder(s) && SingleDrain(s) && Orphan(s, i) && Crashed !in evs
    ensures Orphan(Run(s, evs), i)
    decreases |evs|
  {
    if evs != [] {
      StepKeepsOrphan(s, evs[0], i);
      StepKeepsQueueOrder(s, evs[0]);
      StepKeepsSingleDrain(s, evs[0]);
      RunKeepsOrphan(Step(s, evs[0]), evs[1..], i);
    }
  }

  // The old attempt succeeds, and the loop shifts the one item that is waiting.
  lemma FinishShiftsAnother(s: Sender, i: nat)
    requires QueueOrder(s) && |s.drains| == 1 && s.drains[0].Publishing? && s.drains[0].landed && s.drains[0].item != i
    requires s.queue == [i] && i < |s.outcomes| && s.outcomes[i].Pending?
    ensures Orphan(Resume(s, 0), i)
  {
    assert Without(s.drains, 0) == [] && s.queue[1..] == [];
  }

  lemma {:induction false} RunSnoc(s: Sender, evs: seq<Event>, ev: Event)
    ensures Run(s, evs + [ev]) == Step(Run(s, evs), ev)
    decreases |evs|
  {
    if evs == [] {
      assert [ev][1..] == [] && evs + [ev] == [ev];
    } else {
      assert (evs + [ev])[0] == evs[0] && (evs + [ev])[1..] == evs[1..] + [ev];
      RunSnoc(Step(s, evs[0]), evs[1..], ev);
    }
  }

  lemma {:induction false} QuietSnoc(s: Sender, evs: seq<Event>, ev: Event)
    requires QuietRun(s, evs) && QuietDisconnect(Run(s, evs), ev)
    ensures QuietRun(s, evs + [ev])
    decreases |evs|
  {
    if evs == [] {
      assert evs + [ev] == [ev];
    } else {
      assert (evs + [ev])[0] == evs[0] && (evs + [ev])[1..] == evs[1..] + [ev];
      QuietSnoc(Step(s, evs[0]), evs[1..], ev);
    }
  }

  lemma {:induction false} QuietRunConserves(c: string, s: Sender, logs: Logs, evs: seq<Event>)
    requires SenderInv(c, s, logs) && Conserved(s) && QuietRun(s, evs)
    ensures Conserved(Run(s, evs))
    decreases |evs|
  {
    if evs != [] {
      StepKeepsSenderInv(c, s, logs, evs[0]);
      StepKeepsConserved(s, evs[0]);
      QuietRunConserves(c, Step(s, evs[0]), LogsAfter(c, s, logs, evs[0]), evs[1..]);
    }
  }

  // The drain loop shifts a call published meanwhile in place of the item it holds.
  lemma NextCallShifted(s: Sender, call: Event)
    requires QueueOrder(s) && SingleDrain(s) && s.queue == [] && call.PublishCalled?
    requires |s.drains| == 1 && s.drains[0].Publishing? && s.drains[0].landed
    ensures Orphan(Step(Step(s, call), Resumed(0)), |s.items|)
  {
    var item := Item(call.channel, call.payload);
    PublishKeepsQueueOrder(s, item);
    assert Publish(s, item) == Enqueue(s, item);
    FinishShiftsAnother(Enqueue(s, item), |s.items|);
  }

  lemma NextCallOrphaned(c: string, s: Sender, logs: Logs) returns (evs: seq<Event>)
    requires SenderInv(c, s, logs) && |s.drains| == 1 && s.queue == []
    ensures QuietRun(s, evs) && Orphan(Run(s, evs), |s.items|)
  {
    var before := InHandReachesRelay(c, s, logs);
    var call := PublishCalled("", "");
    RunKeepsShape(c, s, logs, before);
    NextCallShifted(Run(s, before), call);
    evs := before + [call] + [Resumed(0)];
    RunSnoc(s, before, call);
    RunSnoc(s, before + [call], Resumed(0));
    QuietSnoc(s, before, call);
    QuietSnoc(s, before + [call], Resumed(0));
  }

  lemma {:induction false} RunKeepsShape(c: string, s: Sender, logs: Logs, evs: seq<Event>)
    requires SenderInv(c, s, logs)
    ensures SingleDrain(Run(s, evs)) && QueueOrder(Run(s, evs))
    decreases |evs|
  {
    if evs != [] {
      StepKeepsSenderInv(c, s, logs, evs[0]);
      RunKeepsShape(c, Step(s, evs[0]), LogsAfter(c, s, logs, evs[0]), evs[1..]);
    }
  }

  // Every pending promise will still be settled: its item is queued or in hand.
  ghost predicate NoOrphan(s: Sender) { forall i: nat :: !Orphan(s, i) }

  /** The exact condition on disconnect(), for settlement: every promise that is pending in a later
      state is still queued or in hand, whatever happens next, if and only if no item was in hand
      when it was called. */
  lemma DisconnectOrphansIff(c: string, s: Sender, logs: Logs)
    requires SenderInv(c, s, logs) && Conserved(s)
    ensures s.drains == [] <==> forall evs :: QuietRun(Disconnect(s), evs) ==> NoOrphan(Run(Disconnect(s), evs))
  {
    var s1 := Disconnect(s);
    StepKeepsSenderInv(c, s, logs, DisconnectCalled);
    assert LogsAfter(c, s, logs, DisconnectCalled) == logs;
    if s.drains == [] {
      DisconnectKeepsConserved(s);
      forall evs | QuietRun(s1, evs) ensures NoOrphan(Run(s1, evs)) { QuietRunConserves(c, s1, logs, evs); }
    } else {
      var evs := NextCallOrphaned(c, s1, logs);
      assert !NoOrphan(Run(s1, evs));
    }
  }

  // A new transport, connected, with its first message in hand.
  function FirstInHand(channel: string, payload: string): Sender {
    Publish(Step(NEW, ConnectedSeen), Item(channel, payload))
  }

  lemma FirstInHandOk(c: string, channel: string, payload: string)
    ensures var s := FirstInHand(channel, payload); SenderInv(c, s, map[]) && Conserved(s) && s.drains != []
  {
    var s1 := Step(NEW, ConnectedSeen);
    NewKeepsInv(c);
    StepKeepsSenderInv(c, NEW, map[], ConnectedSeen);
    StepKeepsSenderInv(c, s1, map[], PublishCalled(channel, payload));
    StepKeepsConserved(NEW, ConnectedSeen);
    PublishKeepsConserved(s1, Item(channel, payload));
  }

  /** Such a state is reached by connecting a new transport and publishing once. */
  lemma OrphanReachable(c: string, channel: string, payload: string)
    ensures exists evs ::
      QuietRun(Disconnect(FirstInHand(channel, payload)), evs) && !NoOrphan(Run(Disconnect(FirstInHand(channel, payload)), evs))
  {
    FirstInHandOk(c, channel, payload);
    DisconnectOrphansIff(c, FirstInHand(channel, payload), map[]);
  }

  lemma NewKeepsInv(c: string)
    ensures SenderInv(c, NEW, map[]) && Conserved(NEW)
  {
  }

  // ---- Order on the wire ----

  predicate OwnOrdered(c: string, log: Log) {
    && (forall i :: 0 <= i < |log| && From(c, log[i]) ==> log[i].nonce > 0)
    && (forall i, j :: 0 <= i < j < |log| && From(c, log[i]) && From(c, log[j]) ==> log[i].nonce <= log[j].nonce)
  }

  lemma LandingNonceIsGreatest(c: string, s: Sender, logs: Logs, k: nat)
    requires SenderInv(c, s, logs) && |s.drains| == 1 && s.drains[0].Publishing?
    requires var channel := s.items[s.drains[0].item].channel; k < |At(logs, channel)| && From(c, At(logs, channel)[k])
    ensures var channel := s.items[s.drains[0].item].channel;
      0 < At(logs, channel)[k].nonce <= s.drains[0].nonce
  {
    var p := s.drains[0];
    var channel := s.items[p.item].channel;
    var j: nat :| Issued(c, s, j, channel, At(logs, channel)[k]);
    if j < p.item {
      assert s.nonceOf[j] < s.nonceOf[p.item];
    }
  }

  lemma AppendOwnOrdered(c: string, log: Log, e: Entry)
    requires OwnOrdered(c, log) && From(c, e) && e.nonce > 0
    requires forall k :: 0 <= k < |log| && From(c, log[k]) ==> log[k].nonce <= e.nonce
    ensures OwnOrdered(c, log + [e])
  {
  }

  /** Nonces reach the relay in queue order, even with crashes and arbitrary disconnects. */
  lemma StepKeepsOwnOrdered(c: string, s: Sender, logs: Logs, ev: Event, channel: string)
    requires SenderInv(c, s, logs) && OwnOrdered(c, At(logs, channel))
    ensures OwnOrdered(c, At(LogsAfter(c, s, logs, ev), channel))
  {
    if Lands(s, ev) && s.items[s.drains[0].item].channel == channel {
      var log, p := At(logs, channel), s.drains[0];
      forall k | 0 <= k < |log| && From(c, log[k]) ensures log[k].nonce <= p.nonce {
        LandingNonceIsGreatest(c, s, logs, k);
      }
      AppendOwnOrdered(c, log, Message(c, p.nonce, s.items[p.item].payload));
    }
  }

  /** Of two log entries of one sender, the earlier never belongs to a later publish call. */
  lemma LogFollowsPublishOrder(c: string, s: Sender, logs: Logs, channel: string, a: nat, b: nat, i: nat, j: nat)
    requires SenderInv(c, s, logs) && OwnOrdered(c, At(logs, channel)) && a < b < |At(logs, channel)|
    requires Issued(c, s, i, channel, At(logs, channel)[a]) && Issued(c, s, j, channel, At(logs, channel)[b])
    ensures i <= j
  {
    var na, nb := s.nonceOf[i], s.nonceOf[j];
    assert na <= nb;
  }
}
