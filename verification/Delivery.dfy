// Many transports around one relay. Every transport both sends and receives; any await may be
// interleaved with anything else, and any process may crash and restart from its store.

module Delivery {
  import opened Relay
  import opened Reception
  import opened Sender
  import opened Settlement
  import Rx = Receiver

  datatype World = World(senders: map<string, Sender>, logs: Logs, receivers: map<string, map<string, Rx.Receiver>>)

  datatype WorldEvent =
    | Sending(client: string, ev: Event)
    | Receiving(client: string, channel: string, rev: Rx.Event)
    | LateLanding(client: string, item: nat)   // an old frame reaches the relay late, or once more
    | Noise(channel: string)                   // somebody publishes something that does not parse

  function Start(clients: set<string>): World {
    World(map c | c in clients :: NEW, map[], map c | c in clients :: map[])
  }

  function ReceiverOf(w: World, c: string, channel: string): Rx.Receiver {
    if c in w.receivers && channel in w.receivers[c] then w.receivers[c][channel] else Rx.FRESH
  }

  function SetReceiver(w: World, c: string, channel: string, r: Rx.Receiver): World
    requires c in w.receivers
  {
    w.(receivers := w.receivers[c := w.receivers[c][channel := r]])
  }

  predicate CanLandLate(w: World, c: string, i: nat) {
    c in w.senders && i < |w.senders[c].items| && i in w.senders[c].nonceOf
  }

  function StepWorld(w: World, ev: WorldEvent): World {
    match ev
    case Sending(c, e) =>
      if c in w.senders
      then w.(senders := w.senders[c := Step(w.senders[c], e)], logs := LogsAfter(c, w.senders[c], w.logs, e))
      else w
    case Receiving(c, channel, e) =>
      if c in w.receivers then SetReceiver(w, c, channel, Rx.Step(c, ReceiverOf(w, c, channel), e)) else w
    case LateLanding(c, i) =>
      if CanLandLate(w, c, i)
      then w.(logs := Append(w.logs, w.senders[c].items[i].channel, FrameOf(c, w.senders[c], i)))
      else w
    case Noise(channel) => w.(logs := Append(w.logs, channel, Malformed))
  }

  function RunWorld(w: World, evs: seq<WorldEvent>): World {
    if evs == [] then w else StepWorld(RunWorld(w, evs[..|evs| - 1]), evs[|evs| - 1])
  }

  // ---- What every run keeps, with no assumption on network or crashes ----

  ghost predicate SendersInv(w: World) {
    && (forall c :: c in w.senders ==> SenderInv(c, w.senders[c], w.logs))
    && OnlyFromSenders(w)
  }

  // Nobody but the transports themselves uses their identities.
  ghost predicate OnlyFromSenders(w: World) {
    forall channel, k {:trigger At(w.logs, channel)[k]} :: 0 <= k < |At(w.logs, channel)| && At(w.logs, channel)[k].Message?
      ==> At(w.logs, channel)[k].clientId in w.senders
  }

  lemma AppendKeepsSendersInv(w: World, channel: string, e: Entry)
    requires SendersInv(w)
    requires e.Message? ==> e.clientId in w.senders && exists i :: Issued(e.clientId, w.senders[e.clientId], i, channel, e)
    ensures SendersInv(w.(logs := Append(w.logs, channel, e)))
  {
    var w' := w.(logs := Append(w.logs, channel, e));
    forall c | c in w'.senders ensures SenderInv(c, w'.senders[c], w'.logs) {
      AppendKeepsSenderInv(c, w.senders[c], w.logs, channel, e);
    }
    forall ch, k {:trigger At(w'.logs, ch)[k]} | 0 <= k < |At(w'.logs, ch)| && At(w'.logs, ch)[k].Message?
      ensures At(w'.logs, ch)[k].clientId in w.senders
    {
      if ch != channel || k < |At(w.logs, ch)| {
        assert At(w'.logs, ch)[k] == At(w.logs, ch)[k];
      }
    }
  }

  // What a sender's own event puts in the log is its own, and issued.
  lemma LandingIsIssued(c: string, s: Sender, ev: Event)
    requires QueueOrder(s) && Lands(s, ev)
    ensures var p := s.drains[ev.drain];
      Issued(c, s, p.item, s.items[p.item].channel, Message(c, p.nonce, s.items[p.item].payload))
  {
  }

  // For the other senders it is an append of somebody else's entry, or nothing.
  lemma SendingKeepsSendersInv(w: World, c: string, ev: Event)
    requires SendersInv(w) && c in w.senders
    ensures SendersInv(StepWorld(w, Sending(c, ev)))
  {
    var s := w.senders[c];
    StepKeepsSenderInv(c, s, w.logs, ev);
    if Lands(s, ev) {
      var p := s.drains[ev.drain];
      LandingIsIssued(c, s, ev);
      AppendKeepsSendersInv(w, s.items[p.item].channel, Message(c, p.nonce, s.items[p.item].payload));
    }
  }

  lemma StepKeepsSendersInv(w: World, ev: WorldEvent)
    requires SendersInv(w)
    ensures SendersInv(StepWorld(w, ev))
  {
    match ev
    case Sending(c, e) => if c in w.senders { SendingKeepsSendersInv(w, c, e); }
    case Receiving(c, channel, e) =>
    case LateLanding(c, i) =>
      if CanLandLate(w, c, i) {
        var s := w.senders[c];
        assert Issued(c, s, i, s.items[i].channel, FrameOf(c, s, i));
        AppendKeepsSendersInv(w, s.items[i].channel, FrameOf(c, s, i));
      }
    case Noise(channel) => AppendKeepsSendersInv(w, channel, Malformed);
  }

  lemma StartSendersInv(clients: set<string>)
    ensures SendersInv(Start(clients))
  {
  }

  // ---- At most once ----

  // Receivers are shown entries of the log, in any order and any number of times, and start
  // handling a message only when that is safe.
  predicate Guarded(w: World, ev: WorldEvent) {
    ev.Receiving? && ev.rev.Arrival? ==>
      && ev.rev.at < |At(w.logs, ev.channel)| && ev.rev.e == At(w.logs, ev.channel)[ev.rev.at]
      && Rx.Safe(ev.client, ReceiverOf(w, ev.client, ev.channel), ev.rev.e)
  }

  ghost predicate GuardedRun(clients: set<string>, evs: seq<WorldEvent>) {
    forall k :: 0 <= k < |evs| ==> Guarded(RunWorld(Start(clients), evs[..k]), evs[k])
  }

  // Whatever a receiver holds or has emitted is in the log.
  predicate ShownFrom(log: Log, r: Rx.Receiver) {
    && (forall i :: 0 <= i < |r.emitted| ==> r.emitted[i] in log)
    && (forall id :: id in r.handling ==> r.handling[id].e in log)
  }

  ghost predicate ReceiversInv(w: World) {
    forall c, channel :: Rx.Inv(c, ReceiverOf(w, c, channel)) && ShownFrom(At(w.logs, channel), ReceiverOf(w, c, channel))
  }

  lemma RxStepKeepsShown(c: string, log: Log, r: Rx.Receiver, ev: Rx.Event)
    requires ShownFrom(log, r) && (ev.Arrival? ==> ev.e in log)
    ensures ShownFrom(log, Rx.Step(c, r, ev))
  {
  }

  lemma LogsOnlyGrow(w: World, ev: WorldEvent, channel: string)
    ensures At(w.logs, channel) <= At(StepWorld(w, ev).logs, channel)
  {
  }

  lemma ShownFromMore(log: Log, log': Log, r: Rx.Receiver)
    requires log <= log' && ShownFrom(log, r)
    ensures ShownFrom(log', r)
  {
    forall e | e in log ensures e in log' {
      var k :| 0 <= k < |log| && log[k] == e;
      assert log'[k] == e;
    }
  }

  lemma StepKeepsReceiversInv(w: World, ev: WorldEvent)
    requires ReceiversInv(w) && Guarded(w, ev)
    ensures ReceiversInv(StepWorld(w, ev))
  {
    var w' := StepWorld(w, ev);
    forall c, channel
      ensures Rx.Inv(c, ReceiverOf(w', c, channel)) && ShownFrom(At(w'.logs, channel), ReceiverOf(w', c, channel))
    {
      var r := ReceiverOf(w, c, channel);
      if ev.Receiving? && ev.client == c && ev.channel == channel && c in w.receivers {
        Rx.StepKeepsInv(c, r, ev.rev);
        RxStepKeepsShown(c, At(w.logs, channel), r, ev.rev);
      } else {
        assert ReceiverOf(w', c, channel) == r;
        LogsOnlyGrow(w, ev, channel);
        ShownFromMore(At(w.logs, channel), At(w'.logs, channel), r);
      }
    }
  }

  lemma {:induction false} GuardedRunKeepsInv(clients: set<string>, evs: seq<WorldEvent>)
    requires GuardedRun(clients, evs)
    ensures SendersInv(RunWorld(Start(clients), evs)) && ReceiversInv(RunWorld(Start(clients), evs))
  {
    if evs == [] {
      StartSendersInv(clients);
    } else {
      var n := |evs| - 1;
      forall k | 0 <= k < n ensures Guarded(RunWorld(Start(clients), evs[..n][..k]), evs[..n][k]) {
        assert evs[..n][..k] == evs[..k];
      }
      GuardedRunKeepsInv(clients, evs[..n]);
      StepKeepsSendersInv(RunWorld(Start(clients), evs[..n]), evs[n]);
      StepKeepsReceiversInv(RunWorld(Start(clients), evs[..n]), evs[n]);
    }
  }

  // Everything emitted by r on the channel was published there by its sender.
  ghost predicate Genuine(w: World, r: string, channel: string, emitted: Log) {
    forall k :: 0 <= k < |emitted| ==> GenuineEntry(w, r, channel, emitted[k])
  }

  ghost predicate GenuineEntry(w: World, r: string, channel: string, e: Entry) {
    Foreign(r, e) && e.clientId in w.senders && exists i :: Issued(e.clientId, w.senders[e.clientId], i, channel, e)
  }

  lemma LoggedIsIssued(w: World, channel: string, j: nat)
    requires SendersInv(w) && j < |At(w.logs, channel)| && At(w.logs, channel)[j].Message?
    ensures var e := At(w.logs, channel)[j];
      e.clientId in w.senders && exists i :: Issued(e.clientId, w.senders[e.clientId], i, channel, e)
  {
    var e := At(w.logs, channel)[j];
    assert e.clientId in w.senders;
    assert SenderInv(e.clientId, w.senders[e.clientId], w.logs);
  }

  lemma EmittedIsGenuine(w: World, r: string, channel: string, rx: Rx.Receiver)
    requires SendersInv(w) && Rx.Inv(r, rx) && ShownFrom(At(w.logs, channel), rx)
    ensures Genuine(w, r, channel, rx.emitted)
  {
    forall k | 0 <= k < |rx.emitted| ensures GenuineEntry(w, r, channel, rx.emitted[k]) {
      assert rx.emitted[k] in At(w.logs, channel);
      MemberIsIssued(w, channel, rx.emitted[k]);
    }
  }

  lemma MemberIsIssued(w: World, channel: string, e: Entry)
    requires SendersInv(w) && e in At(w.logs, channel) && e.Message?
    ensures e.clientId in w.senders && exists i :: Issued(e.clientId, w.senders[e.clientId], i, channel, e)
  {
    var j :| 0 <= j < |At(w.logs, channel)| && At(w.logs, channel)[j] == e;
    LoggedIsIssued(w, channel, j);
  }

  lemma LogIsFunctional(w: World, channel: string)
    requires SendersInv(w)
    ensures Functional(At(w.logs, channel))
  {
    var log := At(w.logs, channel);
    forall j, k | 0 <= j < |log| && 0 <= k < |log| && SameMessage(log[j], log[k]) ensures log[j] == log[k] {
      assert At(w.logs, channel)[j].clientId in w.senders;
      NonceHasOnePayload(log[j].clientId, w.senders[log[j].clientId], w.logs, channel, j, k);
    }
  }

  lemma RisingHasNoDuplicates(log: Log)
    requires Rx.Rising(log)
    ensures NoDuplicates(log)
  {
  }

  /** At most once: with crashes at any await on either side, store failures, and a relay that
      delays, repeats and reorders, no nonce is used for two payloads, no message is emitted twice,
      every sender's messages come out in nonce order, and each was really published by that
      sender on that channel. */
  lemma AtMostOnceDelivery(clients: set<string>, evs: seq<WorldEvent>, r: string, channel: string)
    requires GuardedRun(clients, evs)
    ensures var w := RunWorld(Start(clients), evs);
      && NoDuplicates(ReceiverOf(w, r, channel).emitted) && Rx.Rising(ReceiverOf(w, r, channel).emitted)
      && Genuine(w, r, channel, ReceiverOf(w, r, channel).emitted)
      && Functional(At(w.logs, channel))
  {
    GuardedRunKeepsInv(clients, evs);
    var w := RunWorld(Start(clients), evs);
    assert Rx.Inv(r, ReceiverOf(w, r, channel));
    RisingHasNoDuplicates(ReceiverOf(w, r, channel).emitted);
    EmittedIsGenuine(w, r, channel, ReceiverOf(w, r, channel));
    LogIsFunctional(w, channel);
  }

  // ---- Exactly once, in order ----

  // A message that lands late, or again, is no older than what its sender already has in the channel.
  predicate Timely(w: World, c: string, i: nat) {
    CanLandLate(w, c, i) ==>
      var s, log := w.senders[c], At(w.logs, w.senders[c].items[i].channel);
      forall k :: 0 <= k < |log| && From(c, log[k]) ==> log[k].nonce <= s.nonceOf[i]
  }

  // Attempts reach the relay before they report, or after, but before any later message of their
  // sender; receivers see in-order slices of the log, one message at a time, and do not fail between
  // the write of a mark and the emit. Otherwise both sides may fail and crash anywhere.
  predicate Prompt(w: World, ev: WorldEvent) {
    match ev
    case Sending(_, _) => true
    case Receiving(c, channel, e) => Rx.InOrder(At(w.logs, channel), ReceiverOf(w, c, channel), e)
    case LateLanding(c, i) => Timely(w, c, i)
    case Noise(_) => true
  }

  ghost predicate PromptRun(clients: set<string>, evs: seq<WorldEvent>) {
    forall k :: 0 <= k < |evs| ==> Prompt(RunWorld(Start(clients), evs[..k]), evs[k])
  }

  ghost predicate ExactInv(w: World) {
    && SendersInv(w)
    && (forall channel :: Ordered(At(w.logs, channel)))
    && (forall c, channel :: Rx.Exact(c, At(w.logs, channel), ReceiverOf(w, c, channel)))
  }

  lemma OwnEntryKeepsOrdered(c: string, log: Log, e: Entry)
    requires Ordered(log) && OwnOrdered(c, log + [e]) && From(c, e)
    ensures Ordered(log + [e])
  {
    var log' := log + [e];
    assert log'[|log|] == e && forall i :: 0 <= i < |log| ==> log'[i] == log[i];
  }

  lemma OrderedIsOwnOrdered(c: string, log: Log)
    requires Ordered(log)
    ensures OwnOrdered(c, log)
  {
  }

  lemma SendingKeepsOrdered(c: string, s: Sender, logs: Logs, ev: Event, channel: string)
    requires SenderInv(c, s, logs) && Ordered(At(logs, channel))
    ensures Ordered(At(LogsAfter(c, s, logs, ev), channel))
  {
    if Lands(s, ev) && s.items[s.drains[0].item].channel == channel {
      var log, e := At(logs, channel), Message(c, s.drains[0].nonce, s.items[s.drains[0].item].payload);
      assert At(LogsAfter(c, s, logs, ev), channel) == log + [e];
      OrderedIsOwnOrdered(c, log);
      StepKeepsOwnOrdered(c, s, logs, ev, channel);
      OwnEntryKeepsOrdered(c, log, e);
    }
  }

  lemma LateKeepsOrdered(w: World, c: string, i: nat, channel: string)
    requires SendersInv(w) && Ordered(At(w.logs, channel)) && CanLandLate(w, c, i) && Timely(w, c, i)
    ensures Ordered(At(StepWorld(w, LateLanding(c, i)).logs, channel))
  {
    var s, log := w.senders[c], At(w.logs, channel);
    if s.items[i].channel == channel {
      assert SenderInv(c, s, w.logs);
      OrderedIsOwnOrdered(c, log);
      AppendOwnOrdered(c, log, FrameOf(c, s, i));
      OwnEntryKeepsOrdered(c, log, FrameOf(c, s, i));
    }
  }

  /** What "in time" has to mean: a frame landing late leaves the channel's nonces in order if and only if
      it is no older than what its sender has there. */
  lemma LateInOrderIff(w: World, c: string, i: nat)
    requires SendersInv(w) && CanLandLate(w, c, i) && Ordered(At(w.logs, w.senders[c].items[i].channel))
    ensures Ordered(At(StepWorld(w, LateLanding(c, i)).logs, w.senders[c].items[i].channel)) <==> Timely(w, c, i)
  {
    var s, channel := w.senders[c], w.senders[c].items[i].channel;
    var log, after := At(w.logs, channel), At(StepWorld(w, LateLanding(c, i)).logs, channel);
    if Timely(w, c, i) {
      LateKeepsOrdered(w, c, i, channel);
    } else {
      var k :| 0 <= k < |log| && From(c, log[k]) && log[k].nonce > s.nonceOf[i];
      assert after[k] == log[k] && after[|log|] == FrameOf(c, s, i);
    }
  }

  lemma NoiseKeepsOrdered(log: Log)
    requires Ordered(log)
    ensures Ordered(log + [Malformed])
  {
  }

  lemma StepKeepsOrdered(w: World, ev: WorldEvent, channel: string)
    requires SendersInv(w) && Ordered(At(w.logs, channel)) && Prompt(w, ev)
    ensures Ordered(At(StepWorld(w, ev).logs, channel))
  {
    match ev
    case Sending(c, e) => if c in w.senders { SendingKeepsOrdered(c, w.senders[c], w.logs, e, channel); }
    case Noise(_) => NoiseKeepsOrdered(At(w.logs, channel));
    case Receiving(_, _, _) =>
    case LateLanding(c, i) => if CanLandLate(w, c, i) { LateKeepsOrdered(w, c, i, channel); }
  }

  lemma StepKeepsReceiverExact(w: World, ev: WorldEvent, c: string, channel: string)
    requires Ordered(At(w.logs, channel)) && Prompt(w, ev) && Rx.Exact(c, At(w.logs, channel), ReceiverOf(w, c, channel))
    ensures Rx.Exact(c, At(StepWorld(w, ev).logs, channel), ReceiverOf(StepWorld(w, ev), c, channel))
  {
    var w', r, log := StepWorld(w, ev), ReceiverOf(w, c, channel), At(w.logs, channel);
    if ev.Receiving? && ev.client == c && ev.channel == channel && c in w.receivers {
      Rx.StepKeepsExact(c, log, r, ev.rev);
    } else {
      assert ReceiverOf(w', c, channel) == r;
      LogsOnlyGrow(w, ev, channel);
      var log' := At(w'.logs, channel);
      assert log' == log + log'[|log|..];
      Rx.ExactWhenLogGrows(c, log, log'[|log|..], r);
    }
  }

  lemma StepKeepsExactInv(w: World, ev: WorldEvent)
    requires ExactInv(w) && Prompt(w, ev)
    ensures ExactInv(StepWorld(w, ev))
  {
    var w' := StepWorld(w, ev);
    StepKeepsSendersInv(w, ev);
    forall channel ensures Ordered(At(w'.logs, channel)) {
      StepKeepsOrdered(w, ev, channel);
    }
    forall c, channel ensures Rx.Exact(c, At(w'.logs, channel), ReceiverOf(w', c, channel)) {
      StepKeepsReceiverExact(w, ev, c, channel);
    }
  }

  lemma {:induction false} PromptRunKeepsInv(clients: set<string>, evs: seq<WorldEvent>)
    requires PromptRun(clients, evs)
    ensures ExactInv(RunWorld(Start(clients), evs))
  {
    if evs == [] {
      StartSendersInv(clients);
    } else {
      var n := |evs| - 1;
      forall k | 0 <= k < n ensures Prompt(RunWorld(Start(clients), evs[..n][..k]), evs[..n][k]) {
        assert evs[..n][..k] == evs[..k];
      }
      PromptRunKeepsInv(clients, evs[..n]);
      StepKeepsExactInv(RunWorld(Start(clients), evs[..n]), evs[n]);
    }
  }

  // ---- From log entries back to publish calls ----

  function OnlyFrom(c: string, log: Log): Log {
    if log == [] then []
    else
      var n := |log| - 1;
      OnlyFrom(c, log[..n]) + if From(c, log[n]) then [log[n]] else []
  }

  // The messages of the first n publish calls to the channel that reached the log, in publish order.
  function Published(c: string, s: Sender, channel: string, log: Log, n: nat): Log
    requires n <= |s.items|
  {
    if n == 0 then []
    else
      Published(c, s, channel, log, n - 1)
      + if n - 1 in s.nonceOf && s.items[n - 1].channel == channel && FrameOf(c, s, n - 1) in log then [FrameOf(c, s, n - 1)] else []
  }

  predicate RisingNonces(log: Log) {
    && (forall i :: 0 <= i < |log| ==> log[i].Message?)
    && (forall i, j :: 0 <= i < j < |log| ==> log[i].nonce < log[j].nonce)
  }

  lemma {:induction false} RisingEqual(a: Log, b: Log)
    requires RisingNonces(a) && RisingNonces(b) && forall e :: e in a <==> e in b
    ensures a == b
  {
    if b != [] { assert b[0] in b; }
    if a != [] {
      assert a[0] in b;
      var m, n := |a| - 1, |b| - 1;
      assert a[m] in b && b[n] in a;
      assert a[m] == b[n];
      forall e ensures e in a[..m] <==> e in b[..n] {
        assert e in a[..m] <==> e in a && e != a[m];
        assert e in b[..n] <==> e in b && e != b[n];
      }
      RisingEqual(a[..m], b[..n]);
    }
  }

  lemma {:induction false} OnlyFromMembers(c: string, log: Log, e: Entry)
    ensures e in OnlyFrom(c, log) <==> e in log && From(c, e)
  {
    if log != [] {
      var n := |log| - 1;
      OnlyFromMembers(c, log[..n], e);
      assert log == log[..n] + [log[n]];
    }
  }

  lemma {:induction false} OnlyFromRising(c: string, log: Log)
    requires Rx.Rising(log)
    ensures RisingNonces(OnlyFrom(c, log))
  {
    if log != [] {
      var n := |log| - 1;
      assert forall i :: 0 <= i < n ==> log[..n][i] == log[i];
      OnlyFromRising(c, log[..n]);
      var front := OnlyFrom(c, log[..n]);
      if From(c, log[n]) {
        forall i | 0 <= i < |front| ensures front[i].nonce < log[n].nonce {
          OnlyFromMembers(c, log[..n], front[i]);
          var k :| 0 <= k < n && log[k] == front[i];
        }
      }
    }
  }

  lemma {:induction false} PublishedMembers(c: string, s: Sender, channel: string, log: Log, n: nat, e: Entry)
    requires n <= |s.items|
    ensures e in Published(c, s, channel, log, n) <==> e in log && exists i: nat :: i < n && Issued(c, s, i, channel, e)
  {
    if n > 0 {
      PublishedMembers(c, s, channel, log, n - 1, e);
      assert Issued(c, s, n - 1, channel, e) <==>
        n - 1 in s.nonceOf && s.items[n - 1].channel == channel && e == FrameOf(c, s, n - 1);
    }
  }

  lemma {:induction false} PublishedRising(c: string, s: Sender, channel: string, log: Log, n: nat)
    requires n <= |s.items| && Numbered(s)
    ensures RisingNonces(Published(c, s, channel, log, n))
  {
    if n > 0 {
      PublishedRising(c, s, channel, log, n - 1);
      var front := Published(c, s, channel, log, n - 1);
      if n - 1 in s.nonceOf && s.items[n - 1].channel == channel {
        forall k | 0 <= k < |front| ensures front[k].nonce < s.nonceOf[n - 1] {
          PublishedMembers(c, s, channel, log, n - 1, front[k]);
          var i: nat :| i < n - 1 && Issued(c, s, i, channel, front[k]);
          assert s.nonceOf[i] < s.nonceOf[n - 1];
        }
      }
    }
  }

  // What a delivered log holds, and its order.
  // A (sender, nonce) pair stands for one message.
  predicate Functional(log: Log) {
    forall j, k :: 0 <= j < |log| && 0 <= k < |log| && SameMessage(log[j], log[k]) ==> log[j] == log[k]
  }

  lemma OldIsThere(own: string, front: Log, e: Entry)
    requires Functional(front + [e])
    ensures Foreign(own, e) && !IsNew(own, front, e) ==> e in front
  {
    var log := front + [e];
    if Foreign(own, e) && !IsNew(own, front, e) {
      var k :| 0 <= k < |front| && SameMessage(front[k], e);
      assert SameMessage(log[k], log[|front|]);
    }
  }

  lemma {:induction false} DeliveredMembers(own: string, log: Log, e: Entry)
    requires Functional(log)
    ensures e in Delivered(own, [], log) <==> e in log && Foreign(own, e)
  {
    if log != [] {
      var n := |log| - 1;
      var front := log[..n];
      FunctionalPart(log, n);
      DeliveredMembers(own, front, e);
      assert log == front + [log[n]] && [] + front == front;
      DeliveredSnoc(own, front, log[n]);
      OldIsThere(own, front, log[n]);
    }
  }

  lemma {:induction false} DeliveredRising(own: string, log: Log)
    requires Ordered(log)
    ensures Rx.Rising(Delivered(own, [], log))
    ensures forall i :: 0 <= i < |Delivered(own, [], log)| ==> Delivered(own, [], log)[i] in log
  {
    if log != [] {
      var n := |log| - 1;
      var front, d := log[..n], Delivered(own, [], log[..n]);
      assert forall k :: 0 <= k < n ==> front[k] == log[k];
      DeliveredRising(own, front);
      assert [] + front == front;
      assert log == front + [log[n]];
      if IsNew(own, front, log[n]) { NewestIsGreatest(own, front, log[n], d); }
    }
  }

  lemma NewestIsGreatest(own: string, front: Log, e: Entry, d: Log)
    requires Ordered(front + [e]) && IsNew(own, front, e) && Rx.Rising(d)
    requires forall i :: 0 <= i < |d| ==> d[i] in front
    ensures Rx.Rising(d + [e])
  {
    var log := front + [e];
    forall i | 0 <= i < |d| && d[i].Message? && d[i].clientId == e.clientId ensures d[i].nonce < e.nonce {
      var k :| 0 <= k < |front| && front[k] == d[i];
      assert log[k] == d[i] && log[|front|] == e && !SameMessage(front[k], e);
    }
  }

  lemma FunctionalPart(log: Log, n: nat)
    requires Functional(log) && n <= |log|
    ensures Functional(log[..n])
  {
    assert forall k :: 0 <= k < n ==> log[..n][k] == log[k];
  }

  // What is delivered from the shown part of the log is, for one sender, what it published there.
  lemma DeliveredIsPublished(w: World, c: string, r: string, channel: string, shown: Log, e: Entry)
    requires SendersInv(w) && c in w.senders && c != r && shown <= At(w.logs, channel) && Functional(shown)
    ensures e in OnlyFrom(c, Delivered(r, [], shown))
      <==> e in Published(c, w.senders[c], channel, shown, |w.senders[c].items|)
  {
    OnlyFromMembers(c, Delivered(r, [], shown), e);
    DeliveredMembers(r, shown, e);
    PublishedMembers(c, w.senders[c], channel, shown, |w.senders[c].items|, e);
    if e in shown && From(c, e) {
      var k :| 0 <= k < |shown| && shown[k] == e;
      assert At(w.logs, channel)[k] == e;
      LoggedIsIssued(w, channel, k);
    }
  }

  /** Exactly once, in order: in every state of every prompt run, what a receiver has emitted from a
      sender is exactly, once each and in publish order, what that sender published on the channel
      and what reached the log up to the furthest entry the receiver has seen. */
  lemma ExactlyOnceInOrder(clients: set<string>, evs: seq<WorldEvent>, c: string, r: string, channel: string)
    requires PromptRun(clients, evs) && c in clients && c != r
    ensures var w := RunWorld(Start(clients), evs);
      && c in w.senders
      && ReceiverOf(w, r, channel).seen <= |At(w.logs, channel)|
      && OnlyFrom(c, ReceiverOf(w, r, channel).emitted)
         == Published(c, w.senders[c], channel, At(w.logs, channel)[..ReceiverOf(w, r, channel).seen], |w.senders[c].items|)
  {
    PromptRunKeepsInv(clients, evs);
    ClientsStay(clients, evs);
    var w := RunWorld(Start(clients), evs);
    var rx, log, s := ReceiverOf(w, r, channel), At(w.logs, channel), w.senders[c];
    assert Rx.Exact(r, log, rx);
    Rx.ExactIsDelivered(r, log, rx);
    var shown := log[..rx.seen];
    OrderedPart(log, rx.seen, rx.seen, rx.seen);
    assert log[..rx.seen] + log[rx.seen..rx.seen] == shown;
    DeliveredRising(r, shown);
    OnlyFromRising(c, rx.emitted);
    PublishedRising(c, s, channel, shown, |s.items|);
    LogIsFunctional(w, channel);
    FunctionalPart(log, rx.seen);
    forall e ensures e in OnlyFrom(c, rx.emitted) <==> e in Published(c, s, channel, shown, |s.items|) {
      DeliveredIsPublished(w, c, r, channel, shown, e);
    }
    RisingEqual(OnlyFrom(c, rx.emitted), Published(c, s, channel, shown, |s.items|));
  }

  lemma {:induction false} ClientsStay(clients: set<string>, evs: seq<WorldEvent>)
    ensures RunWorld(Start(clients), evs).senders.Keys == clients
  {
    if evs != [] { ClientsStay(clients, evs[..|evs| - 1]); }
  }

  function Payloads(log: Log): seq<string> {
    if log == [] then []
    else
      var n := |log| - 1;
      Payloads(log[..n]) + if log[n].Message? then [log[n].payload] else []
  }

  // The payloads given to publish() for the channel, in call order.
  function PayloadsOf(items: seq<Item>, channel: string): seq<string> {
    if items == [] then []
    else
      var n := |items| - 1;
      PayloadsOf(items[..n], channel) + if items[n].channel == channel then [items[n].payload] else []
  }

  lemma PayloadsSnoc(log: Log, e: Entry)
    requires e.Message?
    ensures Payloads(log + [e]) == Payloads(log) + [e.payload]
  {
    assert (log + [e])[..|log|] == log;
  }

  lemma PayloadsOfSnoc(items: seq<Item>, item: Item, channel: string)
    ensures PayloadsOf(items + [item], channel) == PayloadsOf(items, channel) + if item.channel == channel then [item.payload] else []
  {
    assert (items + [item])[..|items|] == items;
  }

  lemma {:induction false} AllPublished(c: string, s: Sender, channel: string, log: Log, n: nat)
    requires n <= |s.items|
    requires forall i :: 0 <= i < n && s.items[i].channel == channel ==> i in s.nonceOf && FrameOf(c, s, i) in log
    ensures Payloads(Published(c, s, channel, log, n)) == PayloadsOf(s.items[..n], channel)
  {
    if n > 0 {
      AllPublished(c, s, channel, log, n - 1);
      var front := Published(c, s, channel, log, n - 1);
      assert s.items[..n] == s.items[..n - 1] + [s.items[n - 1]];
      PayloadsOfSnoc(s.items[..n - 1], s.items[n - 1], channel);
      if s.items[n - 1].channel == channel {
        PayloadsSnoc(front, FrameOf(c, s, n - 1));
      } else {
        assert front + [] == front;
      }
    }
  }

  /** The promise of the transport, end to end: once every publish call of c on the channel has
      resolved to true and r has caught up with the log, r has emitted exactly the payloads given to
      those calls, in call order, whatever retries, crashes and replays happened on the way. */
  lemma EverythingSentArrivesInOrder(clients: set<string>, evs: seq<WorldEvent>, c: string, r: string, channel: string)
    requires PromptRun(clients, evs) && c in clients && c != r
    requires var w := RunWorld(Start(clients), evs);
      && ReceiverOf(w, r, channel).seen == |At(w.logs, channel)|
      && c in w.senders && |w.senders[c].outcomes| == |w.senders[c].items|
      && forall i :: 0 <= i < |w.senders[c].items| && w.senders[c].items[i].channel == channel ==> w.senders[c].outcomes[i].Sent?
    ensures var w := RunWorld(Start(clients), evs);
      c in w.senders && Payloads(OnlyFrom(c, ReceiverOf(w, r, channel).emitted)) == PayloadsOf(w.senders[c].items, channel)
  {
    ExactlyOnceInOrder(clients, evs, c, r, channel);
    PromptRunKeepsInv(clients, evs);
    var w := RunWorld(Start(clients), evs);
    var s, log := w.senders[c], At(w.logs, channel);
    assert SenderInv(c, s, w.logs);
    assert log[..|log|] == log && s.items[..|s.items|] == s.items;
    forall i | 0 <= i < |s.items| && s.items[i].channel == channel ensures i in s.nonceOf && FrameOf(c, s, i) in log {
      assert InLog(c, s, w.logs, i);
    }
    AllPublished(c, s, channel, log, |s.items|);
  }
}
