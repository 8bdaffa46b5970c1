// WebSocketTransport as an object: its fields, the stretches of code between two awaits as methods,
// and its two loops (packages/core/src/transport/websocket/index.ts).

module Transport {
  import opened Wrappers
  import opened KeyValue
  import opened StorageKeys
  import opened TransportStorage
  import opened Relay
  import opened Reception
  import opened Sender
  import opened Clearing
  import opened Settlement
  import S = Sender
  import Rx = Receiver
  import R = Retry

  const BASE_RETRY_DELAY := 100

  class WebSocketTransport {
    const storage: WebSocketTransportStorage
    // The publish calls and their promises; the queue holds positions in these.
    var items: seq<Item>
    var outcomes: seq<Outcome>
    var queue: seq<nat>
    var isProcessingQueue: bool
    var state: Conn
    // The suspended drain loops.
    var drains: seq<Phase>
    ghost var counters: map<string, nat>
    ghost var nonceOf: map<nat, nat>

    ghost function View(): S.Sender reads this {
      S.Sender(items, outcomes, queue, isProcessingQueue, state, drains, counters, nonceOf)
    }

    // The counters of the specification are the nonce records of the store. Holds even inside an event.
    ghost predicate Linked() reads this, storage, storage.kvstore {
      && (forall channel: string :: Counter(View(), channel) == NonceAt(storage.kvstore.data, storage.clientId, channel))
      && |outcomes| == |items|
      && (forall k :: 0 <= k < |queue| ==> queue[k] < |items|)
      && (forall d :: 0 <= d < |drains| ==> drains[d].item < |items|)
    }

    // Between events, at every await: at most one drain loop, which runs whenever it could; the queue in
    // publish order; nonces given out in that order.
    ghost predicate Valid() reads this, storage, storage.kvstore {
      Linked() && SingleDrain(View()) && QueueOrder(View()) && Numbered(View())
    }

    // A transport made over a store in which a former one has left its records.
    constructor (storage: WebSocketTransportStorage, history: S.Sender)
      requires SingleDrain(history) && QueueOrder(history) && Numbered(history)
      requires forall channel: string :: Counter(history, channel) == NonceAt(storage.kvstore.data, storage.clientId, channel)
      ensures Valid() && this.storage == storage && View() == Crash(history)
      ensures items == history.items && queue == [] && !isProcessingQueue && state == Disconnected && drains == []
      ensures forall i :: 0 <= i < |outcomes| ==>
        outcomes[i] == if history.outcomes[i].Pending? then Lost else history.outcomes[i]
    {
      this.storage := storage;
      items, outcomes := history.items, Crash(history).outcomes;
      queue, isProcessingQueue, state, drains := [], false, Disconnected, [];
      counters, nonceOf := history.counters, history.nonceOf;
      new;
      assert View() == Step(history, Crashed);
      EventKeeps(history, Crashed);
    }

    /** The call is queued last with its promise pending, nothing else is settled or reordered, and on a
        connected transport a drain loop is running when the call returns: no wake-up is lost. */
    method Publish(channel: string, payload: string)
      requires Valid()
      modifies this
      ensures Valid() && View() == Step(old(View()), PublishCalled(channel, payload))
      ensures items == old(items) + [Item(channel, payload)] && outcomes == old(outcomes) + [Pending]
      ensures queue == old(queue) + [|old(items)|]
      ensures state.Connected? ==> isProcessingQueue && |drains| == 1 && drains[0].item <= |old(items)|
      ensures !state.Connected? ==> isProcessingQueue == old(isProcessingQueue) && drains == old(drains)
      ensures old(isProcessingQueue) ==> drains == old(drains)
    {
      EventKeeps(View(), PublishCalled(channel, payload));
      items, outcomes, queue := items + [Item(channel, payload)], outcomes + [Pending], queue + [|items|];
      ProcessQueue();
    }

    method Connect()
      requires Valid()
      modifies this`state
      ensures Valid() && View() == Step(old(View()), ConnectCalled)
      ensures state == if old(state).Disconnected? then Connecting else old(state)
    {
      EventKeeps(View(), ConnectCalled);
      if state.Disconnected? { state := Connecting; }
    }

    method OnConnecting()
      requires Valid()
      modifies this`state
      ensures Valid() && View() == Step(old(View()), ConnectingSeen) && state == Connecting
    {
      EventKeeps(View(), ConnectingSeen);
      state := Connecting;
    }

    /** Whatever was queued is being drained now, unless a loop was at it already. */
    method OnConnected()
      requires Valid()
      modifies this
      ensures Valid() && View() == Step(old(View()), ConnectedSeen) && state == Connected
      ensures items == old(items) && outcomes == old(outcomes) && queue == old(queue)
      ensures queue != [] ==> isProcessingQueue && |drains| == 1 && drains[0].item <= queue[0]
      ensures old(isProcessingQueue) ==> drains == old(drains)
    {
      EventKeeps(View(), ConnectedSeen);
      state := Connected;
      ProcessQueue();
    }

    method OnDisconnected()
      requires Valid()
      modifies this`state
      ensures Valid() && View() == Step(old(View()), DisconnectedSeen) && state == Disconnected
    {
      EventKeeps(View(), DisconnectedSeen);
      state := Disconnected;
    }

    /** A subscription changes nothing here: a connected transport with a queue has its loop already. */
    method OnSubscribed()
      requires Valid()
      modifies this
      ensures Valid() && View() == Step(old(View()), SubscribedSeen)
      ensures old(queue) != [] ==> View() == old(View())
    {
      EventKeeps(View(), SubscribedSeen);
      ProcessQueue();
    }

    /** disconnect(): every queued promise resolves to false and the queue is emptied. */
    method Disconnect()
      requires Valid()
      modifies this`outcomes, this`queue
      ensures Valid() && View() == Step(old(View()), DisconnectCalled)
      ensures queue == [] && |outcomes| == |old(outcomes)|
      ensures forall i :: 0 <= i < |outcomes| ==>
        outcomes[i] == if i in old(queue) && old(outcomes)[i].Pending? then NotSent else old(outcomes)[i]
    {
      EventKeeps(View(), DisconnectCalled);
      ResolveQueued();
      queue := [];
    }

    method ResolveQueued()
      modifies this`outcomes
      ensures outcomes == SettleAll(old(outcomes), queue)
    {
      for k := 0 to |queue|
        invariant outcomes == SettleAll(old(outcomes), queue[..k])
      {
        assert queue[..k + 1][..k] == queue[..k];
        outcomes := Settle(outcomes, queue[k], NotSent);
      }
      assert queue[..|queue|] == queue;
    }

    /** clear(), as far as the store goes: the channel's nonce and the marks of its receiving side are
        forgotten. The next message gets nonce 1 again. */
    method Clear(channel: string)
      requires Valid()
      modifies storage.kvstore, this`counters, this`nonceOf
      ensures Linked() && View() == S.Clear(old(View()), channel)
      ensures NonceAt(storage.kvstore.data, storage.clientId, channel) == 0
      ensures MarksAt(storage.kvstore.data, storage.clientId, channel) == map[]
      ensures SameBut(storage.clientId, old(storage.kvstore.data), storage.kvstore.data, {NonceSlot(channel), LatestNoncesSlot(channel)})
      ensures !OnItsWay(old(View()), channel) ==> Valid()
    {
      ghost var cleared := S.Clear(View(), channel);
      if !OnItsWay(View(), channel) { ClearKeeps(View(), channel); }
      ForgetNonce(channel);
      nonceOf := cleared.nonceOf;
      assert View() == cleared;
    }

    method ForgetNonce(channel: string)
      requires Linked()
      modifies storage.kvstore, this`counters
      ensures Linked() && counters == old(counters) - {channel}
      ensures NonceAt(storage.kvstore.data, storage.clientId, channel) == 0
      ensures MarksAt(storage.kvstore.data, storage.clientId, channel) == map[]
      ensures SameBut(storage.clientId, old(storage.kvstore.data), storage.kvstore.data, {NonceSlot(channel), LatestNoncesSlot(channel)})
    {
      ghost var before := storage.kvstore.data;
      storage.Clear(channel);
      counters := counters - {channel};
      forall ch: string ensures Counter(View(), ch) == NonceAt(storage.kvstore.data, storage.clientId, ch) {
        assert Counter(old(View()), ch) == NonceAt(before, storage.clientId, ch);
        if ch != channel { assert KeyOf(storage.clientId, NonceSlot(ch)) == NonceKey(storage.clientId, ch); }
      }
    }

    // The call of _processQueue, up to the drain loop's first await.
    method ProcessQueue()
      requires Linked()
      modifies this
      ensures Linked() && View() == S.ProcessQueue(old(View()))
    {
      if isProcessingQueue || !state.Connected? { return; }
      isProcessingQueue := true;
      LoopHead();
    }

    method LoopHead()
      requires Linked()
      modifies this
      ensures Linked() && View() == S.LoopHead(old(View()))
    {
      if |queue| > 0 {
        drains := drains + [ReadingNonce(queue[0])];
      } else {
        isProcessingQueue := false;
      }
    }

    method Finish(d: nat, to: Outcome)
      requires Linked() && d < |drains|
      modifies this
      ensures Linked() && View() == S.Finish(old(View()), d, to)
    {
      var item := drains[d].item;
      drains := Without(drains, d);
      queue := if queue == [] then [] else queue[1..];
      outcomes := Settle(outcomes, item, to);
      LoopHead();
    }

    // The attempt under way reaches the relay.
    method AttemptLands(d: nat)
      requires Valid() && d < |drains|
      modifies this
      ensures Valid() && View() == Step(old(View()), Landed(d))
    {
      EventKeeps(View(), Landed(d));
      if drains[d].Publishing? { drains := drains[d := drains[d].(landed := true)]; }
    }

    /** The awaited call of a suspended drain loop succeeds: read, persist, publish or backoff. */
    method Resume(d: nat)
      requires Valid() && d < |drains|
      modifies this, storage.kvstore
      ensures Valid() && View() == Step(old(View()), Resumed(d))
    {
      ResumeKeeps(View(), d);
      GoOn(d);
    }

    method GoOn(d: nat)
      requires Linked() && d < |drains|
      modifies this, storage.kvstore
      ensures Linked() && View() == S.Resume(old(View()), d)
    {
      match drains[d]
      case ReadingNonce(i) =>
        var current := storage.ReadNonce(items[i].channel);
        drains := drains[d := WritingNonce(i, current + 1)];
      case WritingNonce(i, n) =>
        Persist(i, n);
        nonceOf := nonceOf[i := n];
        drains := drains[d := Publishing(i, n, 0, false)];
      case Publishing(i, n, k, landed) =>
        if landed { Finish(d, Sent); }
      case BackingOff(i, n, k) =>
        drains := drains[d := Publishing(i, n, k + 1, false)];
    }

    method Persist(i: nat, n: nat)
      requires Linked() && i < |items|
      modifies storage.kvstore, this`counters
      ensures Linked() && counters == old(counters)[items[i].channel := n]
    {
      ghost var before := storage.kvstore.data;
      storage.WriteNonce(items[i].channel, n);
      counters := counters[items[i].channel := n];
      forall channel: string ensures Counter(View(), channel) == NonceAt(storage.kvstore.data, storage.clientId, channel) {
        assert Counter(old(View()), channel) == NonceAt(before, storage.clientId, channel);
        if channel != items[i].channel {
          assert KeyOf(storage.clientId, NonceSlot(channel)) == NonceKey(storage.clientId, channel);
        }
      }
    }

    /** It rejects. A failed attempt other than the fifth only schedules the next one under the same nonce;
        the fifth, or a failed store access, rejects the promise and takes up the next item. */
    method Reject(d: nat, persisted: bool)
      requires Valid() && d < |drains|
      modifies this, storage.kvstore
      ensures Valid() && View() == Step(old(View()), Failed(d, persisted))
      ensures var p := old(drains)[d];
        if FailsForGood(p) then
          && queue == (if old(queue) == [] then [] else old(queue)[1..])
          && outcomes == (if old(outcomes)[p.item].Pending? then old(outcomes)[p.item := Rejected] else old(outcomes))
          && drains == (if queue == [] then [] else [ReadingNonce(queue[0])]) && (isProcessingQueue <==> queue != [])
        else
          && queue == old(queue) && outcomes == old(outcomes) && isProcessingQueue
          && drains == [if p.Publishing? then BackingOff(p.item, p.nonce, p.attempt) else p]
    {
      FailKeeps(View(), d, persisted);
      FailsHow(View(), persisted);
      GiveUp(d, persisted);
    }

    method GiveUp(d: nat, persisted: bool)
      requires Linked() && d < |drains|
      modifies this, storage.kvstore
      ensures Linked() && View() == S.Fail(old(View()), d, persisted)
    {
      match drains[d]
      case ReadingNonce(i) => Finish(d, Rejected);
      case WritingNonce(i, n) =>
        if persisted { Persist(i, n); }
        Finish(d, Rejected);
      case Publishing(i, n, k, landed) =>
        if k == MAX_RETRY_ATTEMPTS - 1 { Finish(d, Rejected); } else { drains := drains[d := BackingOff(i, n, k)]; }
      case BackingOff(i, n, k) =>
    }

    // centrifuge.publish under retry.
    static method PublishWithRetry(reply: (nat, nat) -> bool, item: nat) returns (ok: bool)
      ensures ok <==> Succeeds(reply, item)
    {
      var publishFn := (k: nat) => if reply(item, k) then R.Ok(()) else R.Fail(());
      var result, _, _ := R.Retry(publishFn, MAX_RETRY_ATTEMPTS, BASE_RETRY_DELAY);
      assert forall k: nat :: publishFn(k).Ok? <==> reply(item, k);
      ok := result.Success?;
    }

    /** One round of the drain loop when nothing else happens meanwhile. */
    method ProcessHead(reply: (nat, nat) -> bool)
      requires Linked() && queue != []
      modifies this`queue, this`outcomes, this`counters, this`nonceOf, storage.kvstore
      ensures Linked() && View() == Round(reply, old(View()))
    {
      var item := queue[0];
      GetNextNonce(item);
      var ok := PublishWithRetry(reply, item);
      queue := queue[1..];
      outcomes := Settle(outcomes, item, if ok then Sent else Rejected);
    }

    method GetNextNonce(i: nat)
      requires Linked() && i < |items|
      modifies this`counters, this`nonceOf, storage.kvstore
      ensures Linked()
      ensures var n := Counter(old(View()), items[i].channel) + 1;
        counters == old(counters)[items[i].channel := n] && nonceOf == old(nonceOf)[i := n]
    {
      var current := storage.ReadNonce(items[i].channel);
      assert current == Counter(View(), items[i].channel);
      Persist(i, current + 1);
      nonceOf := nonceOf[i := current + 1];
    }

    /** The whole drain loop when nothing else happens meanwhile. */
    method DrainAlone(reply: (nat, nat) -> bool)
      requires Valid() && !isProcessingQueue
      modifies this`queue, this`outcomes, this`counters, this`nonceOf, this`isProcessingQueue, storage.kvstore
      ensures Linked() && queue == []
      ensures View() == Rounds(reply, old(View()).(processing := true), |old(queue)|).(processing := false)
    {
      isProcessingQueue := true;
      ghost var done: nat, was := 0, View();
      while |queue| > 0
        invariant Linked() && done + |queue| == |old(queue)|
        invariant View() == Rounds(reply, was, done)
        decreases |queue|
      {
        ProcessHead(reply);
        done := done + 1;
      }
      isProcessingQueue := false;
    }
  }

  lemma FailsHow(s: S.Sender, persisted: bool)
    requires SingleDrain(s) && QueueShape(s) && |s.drains| == 1
    ensures var p, s' := s.drains[0], S.Fail(s, 0, persisted);
      if FailsForGood(p) then
        && s'.queue == (if s.queue == [] then [] else s.queue[1..])
        && s'.outcomes == Settle(s.outcomes, p.item, Rejected)
        && s'.drains == (if s'.queue == [] then [] else [ReadingNonce(s'.queue[0])]) && (s'.processing <==> s'.queue != [])
      else
        && s'.queue == s.queue && s'.outcomes == s.outcomes && s'.processing
        && s'.drains == [if p.Publishing? then BackingOff(p.item, p.nonce, p.attempt) else p]
  {
    assert Without(s.drains, 0) == [];
  }

  lemma ClearKeeps(s: S.Sender, channel: string)
    requires SingleDrain(s) && QueueOrder(s) && Numbered(s) && !OnItsWay(s, channel)
    ensures var s' := S.Clear(s, channel); SingleDrain(s') && QueueOrder(s') && Numbered(s')
  {
    ClearKeepsNumbered(s, channel);
    ClearKeepsQueueOrder(s, channel);
  }

  // Every event keeps what Valid says of the machine's state.
  lemma EventKeeps(s: S.Sender, ev: S.Event)
    requires SingleDrain(s) && QueueOrder(s) && Numbered(s)
    ensures SingleDrain(Step(s, ev)) && QueueOrder(Step(s, ev)) && Numbered(Step(s, ev))
  {
    StepKeepsSingleDrain(s, ev);
    StepKeepsQueueOrder(s, ev);
    StepKeepsNumbered(s, ev);
  }

  lemma ResumeKeeps(s: S.Sender, d: nat)
    requires SingleDrain(s) && QueueOrder(s) && Numbered(s) && d < |s.drains|
    ensures var s' := S.Resume(s, d); Step(s, Resumed(d)) == s' && SingleDrain(s') && QueueOrder(s') && Numbered(s')
  {
    EventKeeps(s, Resumed(d));
    assert Step(s, Resumed(d)) == S.Resume(s, d);
  }

  lemma FailKeeps(s: S.Sender, d: nat, persisted: bool)
    requires SingleDrain(s) && QueueOrder(s) && Numbered(s) && d < |s.drains|
    ensures var s' := S.Fail(s, d, persisted);
      Step(s, Failed(d, persisted)) == s' && SingleDrain(s') && QueueOrder(s') && Numbered(s')
  {
    EventKeeps(s, Failed(d, persisted));
    assert Step(s, Failed(d, persisted)) == S.Fail(s, d, persisted);
  }

  // Attempt k for item i ends with reply(i, k); one of the attempts that retry makes succeeds.
  ghost predicate Succeeds(reply: (nat, nat) -> bool, i: nat) {
    exists k: nat :: k < MAX_RETRY_ATTEMPTS && reply(i, k)
  }

  ghost function Round(reply: (nat, nat) -> bool, s: S.Sender): S.Sender {
    if s.queue == [] then s
    else
      var i := s.queue[0];
      var n := Counter(s, ChannelOf(s, i)) + 1;
      s.(queue := s.queue[1..], counters := s.counters[ChannelOf(s, i) := n], nonceOf := s.nonceOf[i := n],
         outcomes := Settle(s.outcomes, i, if Succeeds(reply, i) then Sent else Rejected))
  }

  ghost function Rounds(reply: (nat, nat) -> bool, s: S.Sender, n: nat): S.Sender {
    if n == 0 then s else Round(reply, Rounds(reply, s, n - 1))
  }

  predicate Ready(s: S.Sender) {
    && Increasing(s.queue) && |s.outcomes| == |s.items|
    && forall k :: 0 <= k < |s.queue| ==> s.queue[k] < |s.items| && s.outcomes[s.queue[k]].Pending?
  }

  lemma {:induction false} RoundsShape(reply: (nat, nat) -> bool, s: S.Sender, n: nat)
    requires n <= |s.queue| && Ready(s)
    ensures var s' := Rounds(reply, s, n);
      s'.queue == s.queue[n..] && s'.items == s.items && |s'.outcomes| == |s.outcomes|
  {
    if n > 0 { RoundsShape(reply, s, n - 1); }
  }

  lemma RoundsHead(reply: (nat, nat) -> bool, s: S.Sender, n: nat)
    requires n < |s.queue| && Ready(s)
    ensures var t := Rounds(reply, s, n); t.queue != [] && t.queue[0] == s.queue[n] && t.items == s.items
  {
    RoundsShape(reply, s, n);
  }

  // The outcome of item i after the first n rounds.
  lemma {:induction false} RoundsOutcome(reply: (nat, nat) -> bool, s: S.Sender, n: nat, i: nat)
    requires n <= |s.queue| && Ready(s) && i < |s.items|
    ensures var s' := Rounds(reply, s, n);
      && |s'.outcomes| == |s.outcomes|
      && s'.outcomes[i] == if i !in s.queue[..n] then s.outcomes[i] else if Succeeds(reply, i) then Sent else Rejected
  {
    if n > 0 {
      var t := Rounds(reply, s, n - 1);
      RoundsOutcome(reply, s, n - 1, i);
      RoundsHead(reply, s, n - 1);
      NotEarlier(s, n - 1);
      NextOutcome(reply, s, t, n - 1, i);
      assert Rounds(reply, s, n) == Round(reply, t);
    }
  }

  // One more round, on any state that stands where n rounds would.
  lemma NextOutcome(reply: (nat, nat) -> bool, s: S.Sender, t: S.Sender, n: nat, i: nat)
    requires n < |s.queue| && t.queue != [] && t.queue[0] == s.queue[n] && |t.outcomes| == |s.outcomes| && i < |s.outcomes|
    requires i == s.queue[n] ==> i !in s.queue[..n] && s.outcomes[i].Pending?
    requires t.outcomes[i] == if i !in s.queue[..n] then s.outcomes[i] else if Succeeds(reply, i) then Sent else Rejected
    ensures var t' := Round(reply, t);
      && |t'.outcomes| == |s.outcomes|
      && t'.outcomes[i] == if i !in s.queue[..n + 1] then s.outcomes[i] else if Succeeds(reply, i) then Sent else Rejected
  {
    assert s.queue[..n + 1] == s.queue[..n] + [s.queue[n]];
    RoundOutcome(reply, t, i);
  }

  lemma RoundOutcome(reply: (nat, nat) -> bool, s: S.Sender, i: nat)
    requires s.queue != [] && i < |s.outcomes| && (i == s.queue[0] ==> s.outcomes[i].Pending?)
    ensures var s' := Round(reply, s);
      && |s'.outcomes| == |s.outcomes|
      && s'.outcomes[i] == if i != s.queue[0] then s.outcomes[i] else if Succeeds(reply, i) then Sent else Rejected
  {
  }

  lemma NotEarlier(s: S.Sender, n: nat)
    requires n < |s.queue| && Ready(s)
    ensures s.queue[n] !in s.queue[..n] && s.queue[n] < |s.outcomes| && s.outcomes[s.queue[n]].Pending?
  {
  }

  lemma RoundCounter(reply: (nat, nat) -> bool, s: S.Sender, channel: string)
    requires s.queue != []
    ensures Counter(Round(reply, s), channel) == Counter(s, channel) + if ChannelOf(s, s.queue[0]) == channel then 1 else 0
  {
  }

  lemma {:induction false} RoundsCounter(reply: (nat, nat) -> bool, s: S.Sender, n: nat, channel: string)
    requires n <= |s.queue| && Ready(s)
    ensures Counter(Rounds(reply, s, n), channel) == Counter(s, channel) + QueuedFor(s.items, s.queue[..n], channel)
  {
    if n > 0 {
      var t := Rounds(reply, s, n - 1);
      RoundsCounter(reply, s, n - 1, channel);
      RoundsHead(reply, s, n - 1);
      assert s.queue[n - 1] < |s.items| && ChannelOf(t, t.queue[0]) == s.items[s.queue[n - 1]].channel;
      RoundCounter(reply, t, channel);
      QueuedStep(s.items, s.queue, n - 1, channel);
      assert Rounds(reply, s, n) == Round(reply, t);
    } else {
      assert s.queue[..0] == [];
    }
  }

  lemma RoundNonces(reply: (nat, nat) -> bool, s: S.Sender)
    requires s.queue != []
    ensures var s' := Round(reply, s);
      s'.nonceOf == s.nonceOf[s.queue[0] := Counter(s, ChannelOf(s, s.queue[0])) + 1]
  {
  }

  lemma LastRoundNonce(reply: (nat, nat) -> bool, s: S.Sender, k: nat)
    requires k < |s.queue| && Ready(s)
    ensures var s' := Rounds(reply, s, k + 1); s.queue[k] in s'.nonceOf && s'.nonceOf[s.queue[k]] == NonceOfPlace(s, k)
  {
    RoundsHead(reply, s, k);
    RoundNonces(reply, Rounds(reply, s, k));
    RoundsCounter(reply, s, k, ChannelOf(s, s.queue[k]));
  }

  // A later round is about another item.
  lemma RoundKeepsNonce(reply: (nat, nat) -> bool, s: S.Sender, n: nat, i: nat)
    requires n < |s.queue| && Ready(s) && i != s.queue[n] && i in Rounds(reply, s, n).nonceOf
    ensures i in Rounds(reply, s, n + 1).nonceOf && Rounds(reply, s, n + 1).nonceOf[i] == Rounds(reply, s, n).nonceOf[i]
  {
    RoundsHead(reply, s, n);
    RoundNonces(reply, Rounds(reply, s, n));
  }

  lemma {:induction false} RoundsNonce(reply: (nat, nat) -> bool, s: S.Sender, n: nat, k: nat)
    requires k < n <= |s.queue| && Ready(s)
    ensures var s' := Rounds(reply, s, n); s.queue[k] in s'.nonceOf && s'.nonceOf[s.queue[k]] == NonceOfPlace(s, k)
  {
    if k < n - 1 {
      RoundsNonce(reply, s, n - 1, k);
      assert s.queue[k] != s.queue[n - 1];
      RoundKeepsNonce(reply, s, n - 1, s.queue[k]);
    } else {
      LastRoundNonce(reply, s, k);
    }
  }

  /** What the uninterrupted drain does: each queued item is sent exactly when one of its five attempts
      succeeds, no other promise is touched, and nonces are given out in queue order from one more
      than each channel's last. */
  lemma DrainSettlesAndNumbers(reply: (nat, nat) -> bool, s: S.Sender)
    requires Ready(s)
    ensures var s' := Rounds(reply, s, |s.queue|);
      && s'.queue == [] && |s'.outcomes| == |s.outcomes|
      && (forall i: nat :: i < |s.items| ==>
            s'.outcomes[i] == if i !in s.queue then s.outcomes[i] else if Succeeds(reply, i) then Sent else Rejected)
      && (forall channel :: Counter(s', channel) == Counter(s, channel) + QueuedFor(s.items, s.queue, channel))
      && (forall k :: 0 <= k < |s.queue| ==> s.queue[k] in s'.nonceOf && s'.nonceOf[s.queue[k]] == NonceOfPlace(s, k))
  {
    RoundsShape(reply, s, |s.queue|);
    assert s.queue[..|s.queue|] == s.queue;
    forall i: nat | i < |s.items|
      ensures Rounds(reply, s, |s.queue|).outcomes[i]
        == if i !in s.queue then s.outcomes[i] else if Succeeds(reply, i) then Sent else Rejected
    {
      RoundsOutcome(reply, s, |s.queue|, i);
    }
    forall channel
      ensures Counter(Rounds(reply, s, |s.queue|), channel) == Counter(s, channel) + QueuedFor(s.items, s.queue, channel)
    {
      RoundsCounter(reply, s, |s.queue|, channel);
    }
    forall k | 0 <= k < |s.queue|
      ensures s.queue[k] in Rounds(reply, s, |s.queue|).nonceOf
        && Rounds(reply, s, |s.queue|).nonceOf[s.queue[k]] == NonceOfPlace(s, k)
    {
      RoundsNonce(reply, s, |s.queue|, k);
    }
  }

  // The nonce due to the k-th queued item: its channel's counter plus its place among the channel's items.
  function NonceOfPlace(s: S.Sender, k: nat): nat
    requires k < |s.queue|
  {
    var channel := ChannelOf(s, s.queue[k]);
    Counter(s, channel) + QueuedFor(s.items, s.queue[..k], channel) + 1
  }

  // How many of the queued items are for the channel.
  function QueuedFor(items: seq<Item>, queue: seq<nat>, channel: string): nat {
    if queue == [] then 0
    else
      var n := |queue| - 1;
      QueuedFor(items, queue[..n], channel) + if queue[n] < |items| && items[queue[n]].channel == channel then 1 else 0
  }

  lemma QueuedStep(items: seq<Item>, queue: seq<nat>, done: nat, channel: string)
    requires done < |queue| && queue[done] < |items|
    ensures QueuedFor(items, queue[..done + 1], channel)
      == QueuedFor(items, queue[..done], channel) + if items[queue[done]].channel == channel then 1 else 0
  {
    assert queue[..done + 1][..done] == queue[..done];
  }

  // The calls of _handleIncomingMessage for one channel.
  class ChannelReceiver {
    const storage: WebSocketTransportStorage
    const channel: string
    var emitted: Log
    var handling: map<nat, Rx.Handler>
    var nextId: nat
    var seen: nat

    ghost function View(): Rx.Receiver reads this, storage, storage.kvstore {
      Rx.Receiver(MarksAt(storage.kvstore.data, storage.clientId, channel), emitted, handling, nextId, seen)
    }

    // Suspended calls hold messages of others, under ids already given out.
    ghost predicate Valid() reads this {
      forall id :: id in handling ==> id < nextId && Foreign(storage.clientId, handling[id].e)
    }

    // What at-most-once rests on: no two live calls, snapshots up to date, nothing emitted above its mark.
    ghost predicate AtMostOnce() reads this, storage, storage.kvstore { Rx.Inv(storage.clientId, View()) }

    constructor (storage: WebSocketTransportStorage, channel: string)
      ensures Valid() && AtMostOnce() && this.storage == storage && this.channel == channel
      ensures View() == Rx.Receiver(MarksAt(storage.kvstore.data, storage.clientId, channel), [], map[], 0, 0)
    {
      this.storage, this.channel := storage, channel;
      emitted, handling, nextId, seen := [], map[], 0, 0;
    }

    method Done(at: nat)
      modifies this`seen
      ensures seen == if at == old(seen) then at + 1 else old(seen)
    {
      if at == seen { seen := at + 1; }
    }

    /** The call up to its first await. A message that does not parse, or is our own, ends here; for any
        other, at-most-once is kept if it was safe to start handling it. Nothing is emitted or stored. */
    method HandleIncomingMessage(at: nat, e: Entry)
      requires Valid()
      modifies this
      ensures Valid() && View() == Rx.Step(storage.clientId, old(View()), Rx.Arrival(at, e))
      ensures old(AtMostOnce() && Rx.Safe(storage.clientId, View(), e)) ==> AtMostOnce()
      ensures emitted == old(emitted) && |handling| == |old(handling)| + if Foreign(storage.clientId, e) then 1 else 0
    {
      if AtMostOnce() && Rx.Safe(storage.clientId, View(), e) { Rx.StepKeepsInv(storage.clientId, View(), Rx.Arrival(at, e)); }
      if e.Malformed? || e.clientId == storage.clientId {
        Done(at);
        return;
      }
      handling, nextId := handling[nextId := Rx.ReadingMarks(at, e)], nextId + 1;
    }

    // The call goes on, or fails because the marks do not parse.
    ghost predicate Unreadable(id: nat) reads this, storage, storage.kvstore
      requires id in handling
    {
      handling[id].ReadingMarks? && !MarksReadable(storage.kvstore.data, storage.clientId, channel)
    }

    /** A suspended call goes on: compare, persist, and only then emit. If the marks cannot be read, it
        ends with an error and the message is dropped. Either way at-most-once is kept. */
    method Resume(id: nat)
      requires Valid() && id in handling
      modifies this, storage.kvstore
      ensures Valid()
      ensures View() == Rx.Step(storage.clientId, old(View()), if old(Unreadable(id)) then Rx.Failed(id, false) else Rx.Resumed(id))
      ensures old(AtMostOnce()) ==> AtMostOnce()
    {
      if AtMostOnce() {
        Rx.ResumeKeepsInv(storage.clientId, View(), id);
        Rx.FailKeepsInv(storage.clientId, View(), id, false);
      }
      match handling[id]
      case ReadingMarks(at, e) =>
        var read := storage.GetLatestNonces(channel);
        if read.None? {
          handling := handling - {id};
          return;
        }
        var latestNonces := read.value;
        if e.nonce > Latest(latestNonces, e.clientId) {
          handling := handling[id := Rx.WritingMarks(at, e, latestNonces[e.clientId := e.nonce])];
        } else {
          handling := handling - {id};
          Done(at);
        }
      case WritingMarks(at, e, updated) =>
        storage.SetLatestNonces(channel, updated);
        emitted, handling := emitted + [e], handling - {id};
        Done(at);
    }

    // The filter's state, and what an uninterrupted call or fetch makes of it: nothing while the marks
    // do not parse.
    ghost function Filter(): Inbox reads this, storage, storage.kvstore {
      Inbox(MarksAt(storage.kvstore.data, storage.clientId, channel), emitted)
    }

    ghost predicate Readable() reads this, storage, storage.kvstore {
      MarksReadable(storage.kvstore.data, storage.clientId, channel)
    }

    /** One call run to completion, with nothing in between. */
    method HandleAlone(e: Entry)
      modifies this`emitted, storage.kvstore
      ensures old(Readable()) ==> Readable() && Filter() == Handle(storage.clientId, old(Filter()), e)
      ensures !old(Readable()) ==> !Readable() && emitted == old(emitted)
      ensures SameBut(storage.clientId, old(storage.kvstore.data), storage.kvstore.data, {LatestNoncesSlot(channel)})
    {
      if e.Malformed? || e.clientId == storage.clientId { return; }
      var read := storage.GetLatestNonces(channel);
      if read.None? { return; }
      var latestNonces := read.value;
      if e.nonce > Latest(latestNonces, e.clientId) {
        storage.SetLatestNonces(channel, latestNonces[e.clientId := e.nonce]);
        emitted := emitted + [e];
      }
    }

    /** _fetchHistory: the fetched publications are handled one after the other. */
    method FetchHistory(history: Log)
      modifies this`emitted, storage.kvstore
      ensures old(Readable()) ==> Readable() && Filter() == HandleAll(storage.clientId, old(Filter()), history)
      ensures !old(Readable()) ==> !Readable() && emitted == old(emitted)
      ensures SameBut(storage.clientId, old(storage.kvstore.data), storage.kvstore.data, {LatestNoncesSlot(channel)})
    {
      for k := 0 to |history|
        invariant old(Readable()) ==> Readable() && Filter() == HandleAll(storage.clientId, old(Filter()), history[..k])
        invariant !old(Readable()) ==> !Readable() && emitted == old(emitted)
        invariant SameBut(storage.clientId, old(storage.kvstore.data), storage.kvstore.data, {LatestNoncesSlot(channel)})
      {
        assert history[..k + 1][..k] == history[..k];
        HandleAlone(history[k]);
      }
      assert history[..|history|] == history;
    }
  }
}
