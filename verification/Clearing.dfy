// clear() on a channel: what it costs the sender's later messages of the channel
// (packages/core/src/transport/websocket/store.ts, packages/core/src/transport/websocket/index.ts).

module Clearing {
  import opened Relay
  import opened Reception
  import opened Sender
  import opened Settlement

  predicate OneNonceOnePayload(c: string, log: Log) {
    forall j, k :: 0 <= j < |log| && 0 <= k < |log| && From(c, log[j]) && SameMessage(log[j], log[k]) ==> log[j] == log[k]
  }

  // The item has its nonce, and an attempt under it may be on its way.
  predicate UnderWay(p: Phase) { p.Publishing? || p.BackingOff? }

  // The item in hand has its nonce and is for the channel.
  predicate OnItsWay(s: Sender, channel: string) {
    exists d :: 0 <= d < |s.drains| && UnderWay(s.drains[d]) && ChannelOf(s, s.drains[d].item) == channel
  }

  // Nothing of the sender is in the channel or on its way there.
  predicate NothingOut(c: string, s: Sender, logs: Logs, channel: string) {
    && (forall k :: 0 <= k < |At(logs, channel)| ==> !From(c, At(logs, channel)[k]))
    && !OnItsWay(s, channel)
  }

  // ---- Safe: the sender starts over with an unused channel ----

  lemma ClearKeepsQueueOrder(s: Sender, channel: string)
    requires QueueOrder(s) && !OnItsWay(s, channel)
    ensures QueueOrder(Clear(s, channel))
  {
    var s' := Clear(s, channel);
    assert QueueShape(s');
    if |s.drains| == 1 { assert InHand(s', s'.drains[0]); } else { assert Idle(s'); }
  }

  lemma ClearKeepsNumbered(s: Sender, channel: string)
    requires Numbered(s)
    ensures Numbered(Clear(s, channel))
  {
  }

  lemma ClearKeepsTraced(c: string, s: Sender, logs: Logs, channel: string)
    requires Traced(c, s, logs) && NothingOut(c, s, logs, channel)
    ensures Traced(c, Clear(s, channel), logs)
  {
    forall ch, k {:trigger At(logs, ch)[k]} | 0 <= k < |At(logs, ch)| && From(c, At(logs, ch)[k])
      ensures exists i :: Issued(c, Clear(s, channel), i, ch, At(logs, ch)[k])
    {
      assert ch != channel;
      var i :| Issued(c, s, i, ch, At(logs, ch)[k]);
      assert Issued(c, Clear(s, channel), i, ch, At(logs, ch)[k]);
    }
  }

  lemma ClearKeepsInLog(c: string, s: Sender, logs: Logs, channel: string, i: nat)
    requires InLog(c, s, logs, i) && NothingOut(c, s, logs, channel)
    ensures InLog(c, Clear(s, channel), logs, i)
  {
    var log := At(logs, s.items[i].channel);
    var k :| 0 <= k < |log| && log[k] == FrameOf(c, s, i);
    assert From(c, log[k]);
  }

  lemma ClearKeepsSenderInv(c: string, s: Sender, logs: Logs, channel: string)
    requires SenderInv(c, s, logs) && NothingOut(c, s, logs, channel)
    ensures SenderInv(c, Clear(s, channel), logs)
  {
    ClearKeepsQueueOrder(s, channel);
    ClearKeepsNumbered(s, channel);
    ClearKeepsTraced(c, s, logs, channel);
    forall i | InLog(c, s, logs, i) ensures InLog(c, Clear(s, channel), logs, i) { ClearKeepsInLog(c, s, logs, channel, i); }
  }

  lemma InvGivesOnePayload(c: string, s: Sender, logs: Logs, channel: string)
    requires SenderInv(c, s, logs)
    ensures OneNonceOnePayload(c, At(logs, channel))
  {
    var log := At(logs, channel);
    forall j, k | 0 <= j < |log| && 0 <= k < |log| && From(c, log[j]) && SameMessage(log[j], log[k])
      ensures log[j] == log[k]
    {
      NonceHasOnePayload(c, s, logs, channel, j, k);
    }
  }

  // ---- Unsafe: the numbers come round again ----

  lemma {:induction false} RunConcat(c: string, s: Sender, logs: Logs, a: seq<Event>, b: seq<Event>)
    ensures Run(s, a + b) == Run(Run(s, a), b)
    ensures RunLogs(c, s, logs, a + b) == RunLogs(c, Run(s, a), RunLogs(c, s, logs, a), b)
    decreases |a|
  {
    if a == [] {
      assert a + b == b;
    } else {
      assert (a + b)[0] == a[0] && (a + b)[1..] == a[1..] + b;
      RunConcat(c, Step(s, a[0]), LogsAfter(c, s, logs, a[0]), a[1..], b);
    }
  }

  lemma RunOne(c: string, s: Sender, logs: Logs, ev: Event)
    ensures Run(s, [ev]) == Step(s, ev) && RunLogs(c, s, logs, [ev]) == LogsAfter(c, s, logs, ev)
  {
    assert [ev][1..] == [];
  }

  // No drain loop, nothing queued.
  predicate AtRest(s: Sender) { s.queue == [] && s.drains == [] && !s.processing }

  // One item in hand and nothing queued, or at rest.
  predicate LastItem(s: Sender) {
    && s.queue == [] && |s.drains| <= 1 && (s.processing <==> |s.drains| == 1)
    && (forall d :: 0 <= d < |s.drains| ==> s.drains[d].item < |s.items|)
  }

  // The way home for the item in hand: give up on an item without a nonce, send one that has it.
  function Homeward(p: Phase): Event {
    match p
    case ReadingNonce(_) => Failed(0, false)
    case WritingNonce(_, _) => Failed(0, false)
    case Publishing(_, _, _, landed) => if landed then Resumed(0) else Landed(0)
    case BackingOff(_, _, _) => Resumed(0)
  }

  function WayHome(p: Phase): nat {
    match p
    case BackingOff(_, _, _) => 3
    case Publishing(_, _, _, landed) => if landed then 1 else 2
    case _ => 1
  }

  lemma OneStepHome(s: Sender)
    requires LastItem(s) && s.drains != []
    ensures var s', p := Step(s, Homeward(s.drains[0])), s.drains[0];
      && LastItem(s') && s'.items == s.items && s'.counters == s.counters
      && (s'.drains != [] ==> WayHome(s'.drains[0]) < WayHome(p))
  {
    assert Without(s.drains, 0) == [];
  }

  lemma OneStepGrows(c: string, s: Sender, logs: Logs, ev: Event, channel: string)
    ensures At(logs, channel) <= At(LogsAfter(c, s, logs, ev), channel)
  {
  }

  lemma {:induction false} GoesHome(c: string, s: Sender, logs: Logs, channel: string) returns (evs: seq<Event>)
    requires LastItem(s)
    ensures AtRest(Run(s, evs)) && Run(s, evs).counters == s.counters
    ensures At(logs, channel) <= At(RunLogs(c, s, logs, evs), channel)
    decreases if s.drains == [] then 0 else WayHome(s.drains[0])
  {
    if s.drains == [] {
      evs := [];
    } else {
      var ev := Homeward(s.drains[0]);
      OneStepHome(s);
      OneStepGrows(c, s, logs, ev, channel);
      var rest := GoesHome(c, Step(s, ev), LogsAfter(c, s, logs, ev), channel);
      RunOne(c, s, logs, ev);
      RunConcat(c, s, logs, [ev], rest);
      evs := [ev] + rest;
    }
  }

  // One publish call, from the call to its settled promise.
  lemma SpendStart(s: Sender, channel: string, payload: string)
    requires AtRest(s) && s.conn.Connected?
    ensures var s', i := Step(s, PublishCalled(channel, payload)), |s.items|;
      && s'.items == s.items + [Item(channel, payload)] && s'.drains == [ReadingNonce(i)] && s'.queue == [i]
      && s'.processing && s'.conn.Connected? && s'.counters == s.counters
  {
  }

  lemma SpendNumber(s: Sender, i: nat)
    requires s.drains == [ReadingNonce(i)] && i < |s.items|
    ensures var s', n := Resume(Resume(s, 0), 0), Counter(s, s.items[i].channel) + 1;
      s' == s.(counters := s.counters[s.items[i].channel := n], nonceOf := s.nonceOf[i := n],
               drains := [Publishing(i, n, 0, false)])
  {
    var n := Counter(s, s.items[i].channel) + 1;
    assert s.drains[0 := WritingNonce(i, n)] == [WritingNonce(i, n)];
    assert [WritingNonce(i, n)][0 := Publishing(i, n, 0, false)] == [Publishing(i, n, 0, false)];
  }

  lemma SpendEnd(s: Sender, i: nat, n: nat)
    requires s.drains == [Publishing(i, n, 0, false)] && s.queue == [i] && s.processing
    ensures var s' := Resume(Land(s, 0), 0); AtRest(s') && s'.conn == s.conn && s'.counters == s.counters
  {
    assert Without([Publishing(i, n, 0, true)], 0) == [];
    assert Land(s, 0).drains == [Publishing(i, n, 0, true)];
  }

  lemma RunFive(c: string, s: Sender, logs: Logs, a: Event, b: Event, d: Event, e: Event, f: Event)
    requires !a.Landed? && !b.Landed? && !d.Landed? && !f.Landed?
    ensures var s3 := Step(Step(Step(s, a), b), d);
      && Run(s, [a, b, d, e, f]) == Step(Step(s3, e), f)
      && RunLogs(c, s, logs, [a, b, d, e, f]) == LogsAfter(c, s3, logs, e)
  {
    RunOne(c, s, logs, a);
    RunConcat(c, s, logs, [a], [b]);
    RunOne(c, Step(s, a), logs, b);
    RunConcat(c, s, logs, [a] + [b], [d]);
    RunOne(c, Step(Step(s, a), b), logs, d);
    var s3 := Step(Step(Step(s, a), b), d);
    RunConcat(c, s, logs, [a] + [b] + [d], [e]);
    RunOne(c, s3, logs, e);
    RunConcat(c, s, logs, [a] + [b] + [d] + [e], [f]);
    RunOne(c, Step(s3, e), LogsAfter(c, s3, logs, e), f);
    assert [a] + [b] + [d] + [e] + [f] == [a, b, d, e, f];
  }

  lemma SpendOne(c: string, s: Sender, logs: Logs, channel: string, payload: string) returns (evs: seq<Event>)
    requires AtRest(s) && s.conn.Connected?
    ensures var s', n := Run(s, evs), Counter(s, channel) + 1;
      && AtRest(s') && s'.conn.Connected? && Counter(s', channel) == n
      && At(RunLogs(c, s, logs, evs), channel) == At(logs, channel) + [Message(c, n, payload)]
  {
    var call, i, n := PublishCalled(channel, payload), |s.items|, Counter(s, channel) + 1;
    evs := [call, Resumed(0), Resumed(0), Landed(0), Resumed(0)];
    RunFive(c, s, logs, call, Resumed(0), Resumed(0), Landed(0), Resumed(0));
    SpendStart(s, channel, payload);
    var s1 := Step(s, call);
    SpendNumber(s1, i);
    var s3 := Resume(Resume(s1, 0), 0);
    assert Step(Step(s1, Resumed(0)), Resumed(0)) == s3 by { assert Resume(s1, 0).drains != []; }
    SpendEnd(s3, i, n);
    assert Lands(s3, Landed(0));
  }

  lemma {:induction false} Spend(c: string, s: Sender, logs: Logs, channel: string, payload: string, n: nat)
    returns (evs: seq<Event>)
    requires AtRest(s) && s.conn.Connected?
    ensures var s', log' := Run(s, evs), At(RunLogs(c, s, logs, evs), channel);
      && AtRest(s') && s'.conn.Connected? && Counter(s', channel) == Counter(s, channel) + n
      && At(logs, channel) <= log'
      && (n > 0 ==> |log'| > |At(logs, channel)| && log'[|log'| - 1] == Message(c, Counter(s, channel) + n, payload))
  {
    if n == 0 {
      evs := [];
    } else {
      var first := Spend(c, s, logs, channel, payload, n - 1);
      var last := SpendOne(c, Run(s, first), RunLogs(c, s, logs, first), channel, payload);
      RunConcat(c, s, logs, first, last);
      evs := first + last;
    }
  }

  // A way to rest after a clear: drop the queue, let the item in hand go home, connect.
  lemma WayToRest(c: string, s: Sender, logs: Logs, channel: string) returns (evs: seq<Event>)
    requires SingleDrain(s)
    requires forall d :: 0 <= d < |s.drains| ==> s.drains[d].item < |s.items|
    ensures var s' := Run(s, evs); AtRest(s') && s'.conn.Connected? && s'.counters == s.counters
    ensures At(logs, channel) <= At(RunLogs(c, s, logs, evs), channel)
  {
    var s1 := Disconnect(s);
    var home := GoesHome(c, s1, logs, channel);
    var s2, logs2 := Run(s1, home), RunLogs(c, s1, logs, home);
    RunOne(c, s, logs, DisconnectCalled);
    RunConcat(c, s, logs, [DisconnectCalled], home);
    RunOne(c, s2, logs2, ConnectedSeen);
    RunConcat(c, s, logs, [DisconnectCalled] + home, [ConnectedSeen]);
    evs := [DisconnectCalled] + home + [ConnectedSeen];
  }

  lemma ClearedAtRest(c: string, s: Sender, logs: Logs, channel: string) returns (evs: seq<Event>)
    requires SenderInv(c, s, logs)
    ensures var s' := Run(Clear(s, channel), evs); AtRest(s') && s'.conn.Connected? && Counter(s', channel) == 0
    ensures At(logs, channel) <= At(RunLogs(c, Clear(s, channel), logs, evs), channel)
  {
    evs := WayToRest(c, Clear(s, channel), logs, channel);
  }

  lemma ReuseNonce(c: string, s: Sender, logs: Logs, channel: string, k: nat) returns (evs: seq<Event>)
    requires AtRest(s) && s.conn.Connected? && Counter(s, channel) == 0
    requires k < |At(logs, channel)| && From(c, At(logs, channel)[k]) && At(logs, channel)[k].nonce > 0
    ensures !OneNonceOnePayload(c, At(RunLogs(c, s, logs, evs), channel))
  {
    var e := At(logs, channel)[k];
    var payload := e.payload + "!";
    evs := Spend(c, s, logs, channel, payload, e.nonce);
    var log' := At(RunLogs(c, s, logs, evs), channel);
    assert |payload| != |e.payload|;
    assert log'[k] == e && SameMessage(log'[k], log'[|log'| - 1]);
  }

  // ---- The exact condition ----

  // What may follow a clear: the sender's own events, frames numbered before the clear or after it that
  // land late or once more, and whatever others put into the channels.
  datatype Later = Own(ev: Event) | OldLands(item: nat) | NewLands(item: nat) | Other(channel: string, e: Entry)

  predicate HasFrame(s: Sender, i: nat) { i < |s.items| && i in s.nonceOf }

  function LandFrame(c: string, s: Sender, logs: Logs, i: nat): Logs {
    if HasFrame(s, i) then Append(logs, s.items[i].channel, FrameOf(c, s, i)) else logs
  }

  function SenderAfter(s: Sender, l: Later): Sender { if l.Own? then Step(s, l.ev) else s }

  // `past` is the sender as it was before the clear.
  function LogsOnce(c: string, past: Sender, s: Sender, logs: Logs, l: Later): Logs {
    match l
    case Own(ev) => LogsAfter(c, s, logs, ev)
    case OldLands(i) => LandFrame(c, past, logs, i)
    case NewLands(i) => LandFrame(c, s, logs, i)
    case Other(channel, e) => if From(c, e) then logs else Append(logs, channel, e)
  }

  function RunLater(s: Sender, ls: seq<Later>): Sender
    decreases |ls|
  {
    if ls == [] then s else RunLater(SenderAfter(s, ls[0]), ls[1..])
  }

  function LogsLater(c: string, past: Sender, s: Sender, logs: Logs, ls: seq<Later>): Logs
    decreases |ls|
  {
    if ls == [] then logs else LogsLater(c, past, SenderAfter(s, ls[0]), LogsOnce(c, past, s, logs, ls[0]), ls[1..])
  }

  // No message of the channel has been given a nonce, so none can be in the log or land.
  predicate Unnumbered(s: Sender, channel: string) { forall i :: i in s.nonceOf ==> ChannelOf(s, i) != channel }

  /** A channel without a nonce record has none. */
  lemma NoRecordIsUnnumbered(s: Sender, channel: string)
    requires QueueOrder(s) && Numbered(s) && Counter(s, channel) == 0
    ensures Unnumbered(s, channel)
  {
  }

  lemma LoggedIsNumbered(c: string, s: Sender, logs: Logs, channel: string, k: nat)
    requires Traced(c, s, logs) && k < |At(logs, channel)|
    ensures From(c, At(logs, channel)[k]) ==> !Unnumbered(s, channel)
  {
    if From(c, At(logs, channel)[k]) {
      var i :| Issued(c, s, i, channel, At(logs, channel)[k]);
      assert ChannelOf(s, i) == channel;
    }
  }

  lemma UnnumberedNothingOut(c: string, s: Sender, logs: Logs, channel: string)
    requires SenderInv(c, s, logs) && Unnumbered(s, channel)
    ensures NothingOut(c, s, logs, channel)
  {
    forall k | 0 <= k < |At(logs, channel)| ensures !From(c, At(logs, channel)[k]) { LoggedIsNumbered(c, s, logs, channel, k); }
  }

  lemma LandingKeepsSenderInv(c: string, s: Sender, logs: Logs, i: nat)
    requires SenderInv(c, s, logs)
    ensures SenderInv(c, s, LandFrame(c, s, logs, i))
  {
    if HasFrame(s, i) {
      assert Issued(c, s, i, s.items[i].channel, FrameOf(c, s, i));
      AppendKeepsSenderInv(c, s, logs, s.items[i].channel, FrameOf(c, s, i));
    }
  }

  lemma LaterKeepsSenderInv(c: string, past: Sender, s: Sender, logs: Logs, l: Later)
    requires SenderInv(c, s, logs) && Keeps(past, s)
    ensures SenderInv(c, SenderAfter(s, l), LogsOnce(c, past, s, logs, l)) && Keeps(past, SenderAfter(s, l))
  {
    match l
    case Own(ev) =>
      StepKeepsSenderInv(c, s, logs, ev);
      StepGrows(s, ev);
      KeepsTrans(past, s, Step(s, ev));
    case OldLands(i) => if HasFrame(past, i) { LandingKeepsSenderInv(c, s, logs, i); }
    case NewLands(i) => LandingKeepsSenderInv(c, s, logs, i);
    case Other(channel, e) => if !From(c, e) { AppendKeepsSenderInv(c, s, logs, channel, e); }
  }

  lemma KeepsTrans(a: Sender, b: Sender, c: Sender)
    requires Keeps(a, b) && Keeps(b, c)
    ensures Keeps(a, c)
  {
  }

  lemma {:induction false} LaterRunKeepsSenderInv(c: string, past: Sender, s: Sender, logs: Logs, ls: seq<Later>)
    requires SenderInv(c, s, logs) && Keeps(past, s)
    ensures SenderInv(c, RunLater(s, ls), LogsLater(c, past, s, logs, ls))
    decreases |ls|
  {
    if ls != [] {
      LaterKeepsSenderInv(c, past, s, logs, ls[0]);
      LaterRunKeepsSenderInv(c, past, SenderAfter(s, ls[0]), LogsOnce(c, past, s, logs, ls[0]), ls[1..]);
    }
  }

  // Clearing an unnumbered channel drops no frame.
  lemma UnnumberedClear(c: string, s: Sender, logs: Logs, channel: string)
    requires SenderInv(c, s, logs) && Unnumbered(s, channel)
    ensures SenderInv(c, Clear(s, channel), logs) && Keeps(s, Clear(s, channel))
  {
    UnnumberedNothingOut(c, s, logs, channel);
    ClearKeepsSenderInv(c, s, logs, channel);
  }

  // The sender's events alone.
  function Owns(evs: seq<Event>): (ls: seq<Later>)
    ensures |ls| == |evs|
  {
    if evs == [] then [] else [Own(evs[0])] + Owns(evs[1..])
  }

  lemma {:induction false} OwnsRun(c: string, past: Sender, s: Sender, logs: Logs, evs: seq<Event>)
    ensures RunLater(s, Owns(evs)) == Run(s, evs)
    ensures LogsLater(c, past, s, logs, Owns(evs)) == RunLogs(c, s, logs, evs)
    decreases |evs|
  {
    if evs != [] {
      OwnsRun(c, past, Step(s, evs[0]), LogsAfter(c, s, logs, evs[0]), evs[1..]);
      assert Owns(evs)[1..] == Owns(evs[1..]);
    }
  }

  lemma {:induction false} LaterConcat(c: string, past: Sender, s: Sender, logs: Logs, a: seq<Later>, b: seq<Later>)
    ensures RunLater(s, a + b) == RunLater(RunLater(s, a), b)
    ensures LogsLater(c, past, s, logs, a + b) == LogsLater(c, past, RunLater(s, a), LogsLater(c, past, s, logs, a), b)
    decreases |a|
  {
    if a == [] {
      assert a + b == b;
    } else {
      assert (a + b)[0] == a[0] && (a + b)[1..] == a[1..] + b;
      LaterConcat(c, past, SenderAfter(s, a[0]), LogsOnce(c, past, s, logs, a[0]), a[1..], b);
    }
  }

  lemma LaterOne(c: string, past: Sender, s: Sender, logs: Logs, l: Later)
    ensures RunLater(s, [l]) == SenderAfter(s, l) && LogsLater(c, past, s, logs, [l]) == LogsOnce(c, past, s, logs, l)
  {
    assert [l][1..] == [];
  }

  // After a clear the sender comes to rest, and then a frame from before lands.
  lemma OldFrameLands(c: string, s: Sender, logs: Logs, channel: string, i: nat) returns (ls: seq<Later>)
    requires SenderInv(c, s, logs) && i in s.nonceOf && ChannelOf(s, i) == channel
    ensures var s', log' := RunLater(Clear(s, channel), ls), At(LogsLater(c, s, Clear(s, channel), logs, ls), channel);
      && AtRest(s') && s'.conn.Connected? && Counter(s', channel) == 0
      && log' != [] && From(c, log'[|log'| - 1]) && log'[|log'| - 1].nonce > 0
  {
    var s0 := Clear(s, channel);
    var evs := ClearedAtRest(c, s, logs, channel);
    OwnsRun(c, s, s0, logs, evs);
    LaterConcat(c, s, s0, logs, Owns(evs), [OldLands(i)]);
    LaterOne(c, s, RunLater(s0, Owns(evs)), LogsLater(c, s, s0, logs, Owns(evs)), OldLands(i));
    ls := Owns(evs) + [OldLands(i)];
    assert i < |s.items| && s.nonceOf[i] >= 1;
  }

  lemma UnsafeClear(c: string, s: Sender, logs: Logs, channel: string, i: nat) returns (ls: seq<Later>)
    requires SenderInv(c, s, logs) && i in s.nonceOf && ChannelOf(s, i) == channel
    ensures !OneNonceOnePayload(c, At(LogsLater(c, s, Clear(s, channel), logs, ls), channel))
  {
    var s0 := Clear(s, channel);
    var first := OldFrameLands(c, s, logs, channel, i);
    var s1, logs1 := RunLater(s0, first), LogsLater(c, s, s0, logs, first);
    var reuse := ReuseNonce(c, s1, logs1, channel, |At(logs1, channel)| - 1);
    OwnsRun(c, s, s1, logs1, reuse);
    LaterConcat(c, s, s0, logs, first, Owns(reuse));
    ls := first + Owns(reuse);
  }

  /** The exact condition on clear(): whatever follows, late frames included, no nonce of the channel is
      ever put on two payloads, if and only if no message of the channel had been given a nonce. */
  lemma ClearSafeIff(c: string, s: Sender, logs: Logs, channel: string)
    requires SenderInv(c, s, logs)
    ensures Unnumbered(s, channel) <==>
      forall ls :: OneNonceOnePayload(c, At(LogsLater(c, s, Clear(s, channel), logs, ls), channel))
  {
    if i :| i in s.nonceOf && ChannelOf(s, i) == channel {
      var ls := UnsafeClear(c, s, logs, channel, i);
    } else {
      UnnumberedClear(c, s, logs, channel);
      forall ls ensures OneNonceOnePayload(c, At(LogsLater(c, s, Clear(s, channel), logs, ls), channel)) {
        LaterRunKeepsSenderInv(c, s, Clear(s, channel), logs, ls);
        InvGivesOnePayload(c, RunLater(Clear(s, channel), ls), LogsLater(c, s, Clear(s, channel), logs, ls), channel);
      }
    }
  }

  // ---- Nonces stay positive ----

  predicate PositiveNonces(s: Sender) {
    forall d :: 0 <= d < |s.drains| && !s.drains[d].ReadingNonce? ==> s.drains[d].nonce > 0
  }

  lemma LoopHeadKeepsPositive(s: Sender)
    requires PositiveNonces(s)
    ensures PositiveNonces(LoopHead(s))
  {
  }

  lemma FinishKeepsPositive(s: Sender, d: nat, to: Outcome)
    requires PositiveNonces(s) && d < |s.drains|
    ensures PositiveNonces(Finish(s, d, to))
  {
    LoopHeadKeepsPositive(s.(drains := Without(s.drains, d), queue := if s.queue == [] then [] else s.queue[1..],
                             outcomes := Settle(s.outcomes, s.drains[d].item, to)));
  }

  lemma ResumeKeepsPositive(s: Sender, d: nat)
    requires PositiveNonces(s) && d < |s.drains|
    ensures PositiveNonces(Resume(s, d))
  {
    if s.drains[d].Publishing? { FinishKeepsPositive(s, d, Sent); }
  }

  lemma FailKeepsPositive(s: Sender, d: nat, persisted: bool)
    requires PositiveNonces(s) && d < |s.drains|
    ensures PositiveNonces(Fail(s, d, persisted))
  {
    match s.drains[d]
    case WritingNonce(i, n) =>
      FinishKeepsPositive(if persisted then s.(counters := s.counters[ChannelOf(s, i) := n]) else s, d, Rejected);
    case _ => FinishKeepsPositive(s, d, Rejected);
  }

  lemma StepKeepsPositive(s: Sender, ev: Event)
    requires PositiveNonces(s)
    ensures PositiveNonces(Step(s, ev))
  {
    match ev
    case Resumed(d) => if d < |s.drains| { ResumeKeepsPositive(s, d); }
    case Failed(d, persisted) => if d < |s.drains| { FailKeepsPositive(s, d, persisted); }
    case _ =>
  }

  // The log only grows, by entries with positive nonces.
  predicate GrowsPositively(c: string, log: Log, log': Log) {
    log <= log' && forall k :: |log| <= k < |log'| && From(c, log'[k]) ==> log'[k].nonce > 0
  }

  lemma {:induction false} RunGrowsPositively(c: string, s: Sender, logs: Logs, evs: seq<Event>, channel: string)
    requires PositiveNonces(s)
    ensures GrowsPositively(c, At(logs, channel), At(RunLogs(c, s, logs, evs), channel))
    decreases |evs|
  {
    if evs != [] {
      StepKeepsPositive(s, evs[0]);
      RunGrowsPositively(c, Step(s, evs[0]), LogsAfter(c, s, logs, evs[0]), evs[1..], channel);
    }
  }

  lemma InvIsPositive(c: string, s: Sender, logs: Logs)
    requires SenderInv(c, s, logs)
    ensures PositiveNonces(s)
  {
  }
}
