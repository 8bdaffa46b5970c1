// clear() and the receivers of a channel: those of other clients, whose marks outlive the sender's nonces,
// and the clearing client's own, whose marks are forgotten with them
// (packages/core/src/transport/websocket/store.ts, packages/core/src/transport/websocket/index.ts).

module ClearedReceivers {
  import opened Relay
  import opened Reception
  import opened Sender
  import opened Settlement
  import opened Clearing
  import D = Delivery
  import Rx = Receiver

  // ---- What others hear after a sender's clear ----

  predicate NotOlder(c: string, log: Log, nonce: int) {
    forall k :: 0 <= k < |log| && From(c, log[k]) ==> log[k].nonce <= nonce
  }

  predicate TimelyFrame(c: string, s: Sender, logs: Logs, i: nat) {
    HasFrame(s, i) ==> NotOlder(c, At(logs, s.items[i].channel), s.nonceOf[i])
  }

  // Late frames are no older than what the sender has in the channel, and the others keep the log ordered.
  predicate Timely(c: string, past: Sender, s: Sender, logs: Logs, l: Later) {
    match l
    case Own(_) => true
    case OldLands(i) => TimelyFrame(c, past, logs, i)
    case NewLands(i) => TimelyFrame(c, s, logs, i)
    case Other(channel, e) => !From(c, e) ==> Ordered(At(logs, channel) + [e])
  }

  predicate TimelyRun(c: string, past: Sender, s: Sender, logs: Logs, ls: seq<Later>)
    decreases |ls|
  {
    ls == [] || (Timely(c, past, s, logs, ls[0])
                 && TimelyRun(c, past, SenderAfter(s, ls[0]), LogsOnce(c, past, s, logs, ls[0]), ls[1..]))
  }

  // ---- Heard: nothing of the channel was numbered ----

  lemma FrameKeepsOrdered(c: string, s: Sender, logs: Logs, i: nat, channel: string)
    requires SenderInv(c, s, logs) && Ordered(At(logs, channel)) && TimelyFrame(c, s, logs, i)
    ensures Ordered(At(LandFrame(c, s, logs, i), channel))
  {
    if HasFrame(s, i) && s.items[i].channel == channel {
      var log := At(logs, channel);
      D.OrderedIsOwnOrdered(c, log);
      AppendOwnOrdered(c, log, FrameOf(c, s, i));
      D.OwnEntryKeepsOrdered(c, log, FrameOf(c, s, i));
    }
  }

  lemma SameFrame(c: string, past: Sender, s: Sender, logs: Logs, i: nat)
    requires Keeps(past, s) && HasFrame(past, i)
    ensures LandFrame(c, past, logs, i) == LandFrame(c, s, logs, i)
    ensures TimelyFrame(c, past, logs, i) <==> TimelyFrame(c, s, logs, i)
  {
  }

  lemma LaterKeepsOrdered(c: string, past: Sender, s: Sender, logs: Logs, l: Later, channel: string)
    requires SenderInv(c, s, logs) && Keeps(past, s) && Ordered(At(logs, channel)) && Timely(c, past, s, logs, l)
    ensures Ordered(At(LogsOnce(c, past, s, logs, l), channel))
  {
    match l
    case Own(ev) => D.SendingKeepsOrdered(c, s, logs, ev, channel);
    case OldLands(i) =>
      if HasFrame(past, i) {
        SameFrame(c, past, s, logs, i);
        FrameKeepsOrdered(c, s, logs, i, channel);
      }
    case NewLands(i) => FrameKeepsOrdered(c, s, logs, i, channel);
    case Other(_, _) =>
  }

  lemma LaterExtends(c: string, past: Sender, s: Sender, logs: Logs, l: Later, channel: string)
    ensures At(logs, channel) <= At(LogsOnce(c, past, s, logs, l), channel)
  {
  }

  lemma {:induction false} TimelyRunKeepsOrdered(c: string, past: Sender, s: Sender, logs: Logs, ls: seq<Later>, channel: string)
    requires SenderInv(c, s, logs) && Keeps(past, s) && Ordered(At(logs, channel)) && TimelyRun(c, past, s, logs, ls)
    ensures Ordered(At(LogsLater(c, past, s, logs, ls), channel))
    ensures At(logs, channel) <= At(LogsLater(c, past, s, logs, ls), channel)
    decreases |ls|
  {
    if ls != [] {
      LaterKeepsSenderInv(c, past, s, logs, ls[0]);
      LaterKeepsOrdered(c, past, s, logs, ls[0], channel);
      LaterExtends(c, past, s, logs, ls[0], channel);
      TimelyRunKeepsOrdered(c, past, SenderAfter(s, ls[0]), LogsOnce(c, past, s, logs, ls[0]), ls[1..], channel);
    }
  }

  // The receiver goes through all of the log, in order.
  ghost predicate CatchesUp(own: string, log: Log, r: Rx.Receiver, evs: seq<Rx.Event>) {
    Rx.InOrderFrom(own, log, r, evs) && Rx.Run(own, r, evs).seen == |log|
  }

  // It has emitted every message of c that stands in the log after position n.
  predicate HasHeard(c: string, log: Log, n: nat, emitted: Log) {
    forall k :: n <= k < |log| && From(c, log[k]) ==> log[k] in emitted
  }

  // The message is delivered, or another of the log with its nonce in its place.
  predicate Covered(own: string, log: Log, e: Entry) {
    exists d :: d in Delivered(own, [], log) && d in log && SameMessage(d, e)
  }

  lemma CoveredGrows(own: string, front: Log, last: Entry, e: Entry)
    requires Covered(own, front, e)
    ensures Covered(own, front + [last], e)
  {
    DeliveredSnoc(own, front, last);
    var d :| d in Delivered(own, [], front) && d in front && SameMessage(d, e);
    assert d in Delivered(own, [], front + [last]) && d in front + [last];
  }

  lemma NewIsCovered(own: string, front: Log, e: Entry)
    requires IsNew(own, front, e)
    ensures Covered(own, front + [e], e)
  {
    DeliveredSnoc(own, front, e);
    assert e in Delivered(own, [], front + [e]);
  }

  lemma {:induction false} DeliveredCovers(own: string, log: Log, k: nat)
    requires k < |log| && Foreign(own, log[k])
    ensures Covered(own, log, log[k])
  {
    var n := |log| - 1;
    var front := log[..n];
    assert log == front + [log[n]];
    if k < n {
      DeliveredCovers(own, front, k);
      CoveredGrows(own, front, log[n], log[k]);
    } else if IsNew(own, front, log[n]) {
      NewIsCovered(own, front, log[n]);
    } else {
      var i :| 0 <= i < |front| && SameMessage(front[i], log[n]);
      DeliveredCovers(own, front, i);
      CoveredGrows(own, front, log[n], front[i]);
      SameIsCovered(own, log, front[i], log[n]);
    }
  }

  lemma SameIsCovered(own: string, log: Log, e: Entry, f: Entry)
    requires Covered(own, log, e) && SameMessage(e, f)
    ensures Covered(own, log, f)
  {
    var d :| d in Delivered(own, [], log) && d in log && SameMessage(d, e);
    assert SameMessage(d, f);
  }

  lemma DeliveredIsHeard(c: string, own: string, log: Log, n: nat)
    requires own != c && OneNonceOnePayload(c, log)
    ensures HasHeard(c, log, n, Delivered(own, [], log))
  {
    forall k | n <= k < |log| && From(c, log[k]) ensures log[k] in Delivered(own, [], log) {
      DeliveredCovers(own, log, k);
      var d :| d in Delivered(own, [], log) && d in log && SameMessage(d, log[k]);
      var i :| 0 <= i < |log| && log[i] == d;
      assert log[k] == log[i];
    }
  }

  lemma UnnumberedIsHeard(c: string, s: Sender, logs: Logs, channel: string, own: string, r: Rx.Receiver, ls: seq<Later>, evs: seq<Rx.Event>)
    requires SenderInv(c, s, logs) && own != c && Ordered(At(logs, channel)) && Rx.Exact(own, At(logs, channel), r)
    requires Unnumbered(s, channel) && TimelyRun(c, s, Clear(s, channel), logs, ls)
    requires CatchesUp(own, At(LogsLater(c, s, Clear(s, channel), logs, ls), channel), r, evs)
    ensures HasHeard(c, At(LogsLater(c, s, Clear(s, channel), logs, ls), channel), |At(logs, channel)|, Rx.Run(own, r, evs).emitted)
  {
    var s0, log := Clear(s, channel), At(logs, channel);
    UnnumberedClear(c, s, logs, channel);
    TimelyRunKeepsOrdered(c, s, s0, logs, ls, channel);
    LaterRunKeepsSenderInv(c, s, s0, logs, ls);
    var logs' := LogsLater(c, s, s0, logs, ls);
    var log' := At(logs', channel);
    InvGivesOnePayload(c, RunLater(s0, ls), logs', channel);
    assert log' == log + log'[|log|..];
    Rx.ExactAlwaysDelivers(own, log, r);
    assert Rx.DeliversSeen(own, log + log'[|log|..], r, evs);
    assert log'[..|log'|] == log';
    DeliveredIsHeard(c, own, log', |log|);
  }

  // ---- Not heard: the numbers have been used before ----

  // A receiver at rest goes through the rest of the log, whatever it holds.
  lemma {:induction false} CatchUp(own: string, log: Log, r: Rx.Receiver) returns (evs: seq<Rx.Event>)
    requires r.handling == map[] && r.seen <= |log|
    ensures CatchesUp(own, log, r, evs)
    ensures var r' := Rx.Run(own, r, evs);
      r'.handling == map[] && Inbox(r'.marks, r'.emitted) == HandleAll(own, Inbox(r.marks, r.emitted), log[r.seen..])
    decreases |log| - r.seen
  {
    if r.seen == |log| {
      evs := [];
    } else {
      var first := HandleNext(own, log, r);
      var r1 := Rx.Run(own, r, first);
      var rest := CatchUp(own, log, r1);
      evs := first + rest;
      Rx.RunConcat(own, r, first, rest);
      InOrderConcat(own, log, r, first, rest);
      assert log[r.seen..] == [log[r.seen]] + log[r.seen + 1..];
      HandleAllConcat(own, Inbox(r.marks, r.emitted), [log[r.seen]], log[r.seen + 1..]);
      HandleAllOne(own, Inbox(r.marks, r.emitted), log[r.seen]);
    }
  }

  lemma HandleAllOne(own: string, s: Inbox, e: Entry)
    ensures HandleAll(own, s, [e]) == Handle(own, s, e)
  {
    assert [e][..0] == [];
  }

  lemma InOrderConcat(own: string, log: Log, r: Rx.Receiver, a: seq<Rx.Event>, b: seq<Rx.Event>)
    requires Rx.InOrderFrom(own, log, r, a) && Rx.InOrderFrom(own, log, Rx.Run(own, r, a), b)
    ensures Rx.InOrderFrom(own, log, r, a + b)
  {
    forall k | 0 <= k < |a + b| ensures Rx.InOrder(log, Rx.Run(own, r, (a + b)[..k]), (a + b)[k]) {
      if k < |a| {
        assert (a + b)[..k] == a[..k];
      } else {
        assert (a + b)[..k] == a + b[..k - |a|];
        Rx.RunConcat(own, r, a, b[..k - |a|]);
      }
    }
  }

  lemma HandleNext(own: string, log: Log, r: Rx.Receiver) returns (evs: seq<Rx.Event>)
    requires r.handling == map[] && r.seen < |log|
    ensures Rx.InOrderFrom(own, log, r, evs)
    ensures var r' := Rx.Run(own, r, evs);
      && r'.handling == map[] && r'.seen == r.seen + 1
      && Inbox(r'.marks, r'.emitted) == Handle(own, Inbox(r.marks, r.emitted), log[r.seen])
  {
    var arrival, resumed := Rx.Arrival(r.seen, log[r.seen]), Rx.Resumed(r.nextId);
    evs := [arrival, resumed, resumed];
    Rx.UninterruptedIsHandle(own, r, r.seen, log[r.seen]);
    Rx.RunOne(own, r, arrival);
    Rx.RunMore(own, r, [arrival], resumed);
    Rx.RunMore(own, r, [arrival] + [resumed], resumed);
    assert [arrival] + [resumed] + [resumed] == evs && evs[..0] == [] && evs[..1] == [arrival] && evs[..2] == [arrival] + [resumed];
  }

  lemma {:induction false} MarkCovers(own: string, log: Log, k: nat)
    requires k < |log| && Foreign(own, log[k])
    ensures Latest(HandleAll(own, EMPTY, log).marks, log[k].clientId) >= log[k].nonce
  {
    if k < |log| - 1 { MarkCovers(own, log[..|log| - 1], k); }
  }

  lemma {:induction false} EmittedInLog(own: string, log: Log, e: Entry)
    ensures e in HandleAll(own, EMPTY, log).emitted ==> e in log
  {
    if log != [] {
      var n := |log| - 1;
      EmittedInLog(own, log[..n], e);
      assert log == log[..n] + [log[n]];
    }
  }

  // Longer than every payload of the log.
  function Longer(log: Log): (p: string)
    ensures forall k :: 0 <= k < |log| && log[k].Message? ==> |log[k].payload| < |p|
  {
    if log == [] then "!"
    else
      var n := |log| - 1;
      Longer(log[..n]) + (if log[n].Message? then log[n].payload else "") + "!"
  }

  // Nonce 1 comes too late for a receiver that has gone through an entry of the sender.
  lemma OneIsMissed(c: string, own: string, log: Log, k: nat, payload: string)
    requires own != c && k < |log| && From(c, log[k]) && log[k].nonce > 0 && Message(c, 1, payload) !in log
    ensures Message(c, 1, payload) !in HandleAll(own, EMPTY, log + [Message(c, 1, payload)]).emitted
  {
    MarkCovers(own, log, k);
    HandleAllSnoc(own, EMPTY, log, Message(c, 1, payload));
    EmittedInLog(own, log, Message(c, 1, payload));
  }

  // Restarted and brought up to date, the receiver has handled the whole log.
  lemma RestartAndCatchUp(own: string, log: Log, log': Log, r: Rx.Receiver) returns (evs: seq<Rx.Event>)
    requires Rx.Exact(own, log, r) && log <= log'
    ensures CatchesUp(own, log', r, evs) && Rx.Run(own, r, evs).emitted == HandleAll(own, EMPTY, log').emitted
  {
    var r1 := Rx.Step(own, r, Rx.Restarted);
    Rx.RunOne(own, r, Rx.Restarted);
    var rest := CatchUp(own, log', r1);
    evs := [Rx.Restarted] + rest;
    Rx.RunConcat(own, r, [Rx.Restarted], rest);
    assert [Rx.Restarted][..0] == [];
    InOrderConcat(own, log', r, [Rx.Restarted], rest);
    assert log'[..r.seen] == log[..r.seen] && log' == log'[..r.seen] + log'[r.seen..];
    HandleAllConcat(own, EMPTY, log'[..r.seen], log'[r.seen..]);
  }

  lemma {:induction false} OwnsTimely(c: string, past: Sender, s: Sender, logs: Logs, evs: seq<Event>)
    ensures TimelyRun(c, past, s, logs, Owns(evs))
    decreases |evs|
  {
    if evs != [] {
      OwnsTimely(c, past, Step(s, evs[0]), LogsAfter(c, s, logs, evs[0]), evs[1..]);
      assert Owns(evs)[1..] == Owns(evs[1..]);
    }
  }

  lemma {:induction false} TimelyConcat(c: string, past: Sender, s: Sender, logs: Logs, a: seq<Later>, b: seq<Later>)
    requires TimelyRun(c, past, s, logs, a) && TimelyRun(c, past, RunLater(s, a), LogsLater(c, past, s, logs, a), b)
    ensures TimelyRun(c, past, s, logs, a + b)
    decreases |a|
  {
    if a == [] {
      assert a + b == b;
    } else {
      assert (a + b)[0] == a[0] && (a + b)[1..] == a[1..] + b;
      TimelyConcat(c, past, SenderAfter(s, a[0]), LogsOnce(c, past, s, logs, a[0]), a[1..], b);
    }
  }

  // An entry of the sender with a nonce above 0.
  predicate Used(c: string, log: Log) { exists k :: 0 <= k < |log| && From(c, log[k]) && log[k].nonce > 0 }

  // After the clear, at rest: what of the sender is in the channel has a positive nonce.
  lemma RestPositive(c: string, s: Sender, logs: Logs, channel: string) returns (evs: seq<Event>)
    requires SenderInv(c, s, logs)
    ensures var s', log' := Run(Clear(s, channel), evs), At(RunLogs(c, Clear(s, channel), logs, evs), channel);
      && AtRest(s') && s'.conn.Connected? && Counter(s', channel) == 0 && At(logs, channel) <= log'
      && forall k :: 0 <= k < |log'| && From(c, log'[k]) ==> log'[k].nonce > 0
  {
    evs := ClearedAtRest(c, s, logs, channel);
    InvIsPositive(c, s, logs);
    RunGrowsPositively(c, Clear(s, channel), logs, evs, channel);
    LoggedPositive(c, s, logs, channel);
  }

  lemma LoggedPositive(c: string, s: Sender, logs: Logs, channel: string)
    requires SenderInv(c, s, logs)
    ensures forall k :: 0 <= k < |At(logs, channel)| && From(c, At(logs, channel)[k]) ==> At(logs, channel)[k].nonce > 0
  {
    forall k | 0 <= k < |At(logs, channel)| && From(c, At(logs, channel)[k]) ensures At(logs, channel)[k].nonce > 0 {
      var i :| Issued(c, s, i, channel, At(logs, channel)[k]);
    }
  }

  // Then a used nonce is in the channel, or one from before the clear lands there, in time.
  lemma UsedAgain(c: string, s: Sender, logs: Logs, channel: string, i: nat) returns (ls: seq<Later>)
    requires SenderInv(c, s, logs) && i in s.nonceOf && ChannelOf(s, i) == channel
    ensures TimelyRun(c, s, Clear(s, channel), logs, ls)
    ensures var s', log' := RunLater(Clear(s, channel), ls), At(LogsLater(c, s, Clear(s, channel), logs, ls), channel);
      AtRest(s') && s'.conn.Connected? && Counter(s', channel) == 0 && At(logs, channel) <= log' && Used(c, log')
  {
    var s0 := Clear(s, channel);
    var evs := RestPositive(c, s, logs, channel);
    OwnsRun(c, s, s0, logs, evs);
    OwnsTimely(c, s, s0, logs, evs);
    ls := Owns(evs);
    var s1, logs1 := RunLater(s0, ls), LogsLater(c, s, s0, logs, ls);
    if !Used(c, At(logs1, channel)) {
      LaterConcat(c, s, s0, logs, ls, [OldLands(i)]);
      LaterOne(c, s, s1, logs1, OldLands(i));
      OldLandsTimely(c, s, s1, logs1, channel, i);
      TimelyConcat(c, s, s0, logs, ls, [OldLands(i)]);
      ls := ls + [OldLands(i)];
    }
  }

  lemma OldLandsTimely(c: string, past: Sender, s: Sender, logs: Logs, channel: string, i: nat)
    requires QueueOrder(past) && Numbered(past) && i in past.nonceOf && ChannelOf(past, i) == channel
    requires forall k :: 0 <= k < |At(logs, channel)| ==> !From(c, At(logs, channel)[k])
    ensures TimelyRun(c, past, s, logs, [OldLands(i)])
    ensures var log' := At(LogsOnce(c, past, s, logs, OldLands(i)), channel); At(logs, channel) <= log' && Used(c, log')
  {
    var logs' := LogsOnce(c, past, s, logs, OldLands(i));
    assert [OldLands(i)][1..] == [];
    assert TimelyRun(c, past, s, logs', []);
    assert At(logs', channel)[|At(logs, channel)|] == FrameOf(c, past, i);
  }

  // The run and the new message that the receiver misses.
  lemma NumberedIsMissed(c: string, s: Sender, logs: Logs, channel: string, own: string, r: Rx.Receiver, i: nat)
    returns (ls: seq<Later>, evs: seq<Rx.Event>)
    requires SenderInv(c, s, logs) && own != c && Rx.Exact(own, At(logs, channel), r)
    requires i in s.nonceOf && ChannelOf(s, i) == channel
    ensures TimelyRun(c, s, Clear(s, channel), logs, ls)
    ensures CatchesUp(own, At(LogsLater(c, s, Clear(s, channel), logs, ls), channel), r, evs)
    ensures !HasHeard(c, At(LogsLater(c, s, Clear(s, channel), logs, ls), channel), |At(logs, channel)|, Rx.Run(own, r, evs).emitted)
  {
    var s0, log := Clear(s, channel), At(logs, channel);
    var first := UsedAgain(c, s, logs, channel, i);
    var s1, logs1 := RunLater(s0, first), LogsLater(c, s, s0, logs, first);
    var log1 := At(logs1, channel);
    var payload := Longer(log1);
    var last := SpendOne(c, s1, logs1, channel, payload);
    OwnsRun(c, s, s1, logs1, last);
    OwnsTimely(c, s, s1, logs1, last);
    LaterConcat(c, s, s0, logs, first, Owns(last));
    TimelyConcat(c, s, s0, logs, first, Owns(last));
    ls := first + Owns(last);
    var e := Message(c, 1, payload);
    var log' := At(LogsLater(c, s, s0, logs, ls), channel);
    assert log' == log1 + [e];
    var k :| 0 <= k < |log1| && From(c, log1[k]) && log1[k].nonce > 0;
    OneIsMissed(c, own, log1, k, payload);
    evs := RestartAndCatchUp(own, log, log', r);
    assert log'[|log1|] == e;
  }

  /** What a sender's clear costs an exact receiver: in every timely continuation, once the receiver has
      caught up with the log in order it has emitted everything the sender published after the clear,
      if and only if no message of the channel had been given a nonce. */
  lemma ClearHeardIff(c: string, s: Sender, logs: Logs, channel: string, own: string, r: Rx.Receiver)
    requires SenderInv(c, s, logs) && own != c && Ordered(At(logs, channel)) && Rx.Exact(own, At(logs, channel), r)
    ensures Unnumbered(s, channel) <==>
      forall ls, evs :: TimelyRun(c, s, Clear(s, channel), logs, ls)
        && CatchesUp(own, At(LogsLater(c, s, Clear(s, channel), logs, ls), channel), r, evs)
        ==> HasHeard(c, At(LogsLater(c, s, Clear(s, channel), logs, ls), channel), |At(logs, channel)|, Rx.Run(own, r, evs).emitted)
  {
    if i :| i in s.nonceOf && ChannelOf(s, i) == channel {
      var ls, evs := NumberedIsMissed(c, s, logs, channel, own, r, i);
    } else {
      forall ls, evs | TimelyRun(c, s, Clear(s, channel), logs, ls)
                       && CatchesUp(own, At(LogsLater(c, s, Clear(s, channel), logs, ls), channel), r, evs)
        ensures HasHeard(c, At(LogsLater(c, s, Clear(s, channel), logs, ls), channel), |At(logs, channel)|, Rx.Run(own, r, evs).emitted)
      {
        UnnumberedIsHeard(c, s, logs, channel, own, r, ls, evs);
      }
    }
  }

  // ---- What the clearing client itself receives afterwards ----

  // clear(channel) deletes the channel's marks; calls in flight go on.
  function Forget(r: Rx.Receiver): Rx.Receiver { r.(marks := map[]) }

  // Marks are never negative, and only positive nonces come out.
  ghost predicate Positive(r: Rx.Receiver) {
    && (forall c: string :: Latest(r.marks, c) >= 0)
    && (forall k :: 0 <= k < |r.emitted| ==> r.emitted[k].Message? && r.emitted[k].nonce > 0)
  }

  lemma StepKeepsPositiveMarks(own: string, r: Rx.Receiver, ev: Rx.Event)
    requires Rx.Inv(own, r) && Positive(r)
    ensures Positive(Rx.Step(own, r, ev))
  {
    match ev
    case Resumed(id) => if id in r.handling && r.handling[id].WritingMarks? { WritingPositive(own, r, id); }
    case Failed(id, _) => if id in r.handling && r.handling[id].WritingMarks? { WritingPositive(own, r, id); }
    case _ =>
  }

  // What a call is about to write.
  lemma WritingPositive(own: string, r: Rx.Receiver, id: nat)
    requires Rx.Inv(own, r) && Positive(r) && id in r.handling && r.handling[id].WritingMarks?
    ensures var h := r.handling[id];
      && h.e.Message? && h.e.nonce > 0 && Latest(h.updated, h.e.clientId) == h.e.nonce
      && forall c: string :: Latest(h.updated, c) >= 0
  {
    var h := r.handling[id];
    assert Accepts(own, r.marks, h.e) && Latest(r.marks, h.e.clientId) >= 0;
    forall c: string ensures Latest(h.updated, c) >= 0 { assert Latest(r.marks, c) >= 0; }
  }

  lemma {:induction false} ReachedIsPositive(own: string, evs: seq<Rx.Event>)
    requires Rx.AllowedFrom(own, Rx.FRESH, evs)
    ensures Rx.Inv(own, Rx.Run(own, Rx.FRESH, evs)) && Positive(Rx.Run(own, Rx.FRESH, evs))
  {
    Rx.AllowedKeepsInv(own, Rx.FRESH, evs);
    if evs != [] {
      var n := |evs| - 1;
      forall k | 0 <= k < n ensures Rx.Allowed(own, Rx.Run(own, Rx.FRESH, evs[..n][..k]), evs[..n][k]) {
        assert evs[..n][..k] == evs[..k];
      }
      ReachedIsPositive(own, evs[..n]);
      StepKeepsPositiveMarks(own, Rx.Run(own, Rx.FRESH, evs[..n]), evs[n]);
    }
  }

  // At most one suspended call will emit, or has yet to find out that it will not.
  predicate OneLive(own: string, r: Rx.Receiver) {
    forall id, id' :: id in r.handling && id' in r.handling && id != id' ==>
      !Rx.Live(own, r.marks, r.handling[id]) || !Rx.Live(own, r.marks, r.handling[id'])
  }

  // A call that writes will raise the marks, its sender's to its own nonce.
  ghost predicate Raises(own: string, marks: Marks, h: Rx.Handler) {
    h.WritingMarks? ==>
      && Accepts(own, marks, h.e) && Latest(h.updated, h.e.clientId) == h.e.nonce
      && forall c: string :: Latest(h.updated, c) >= Latest(marks, c)
  }

  // What at-most-once needs, with no claim that snapshots are up to date.
  ghost predicate Tidy(own: string, r: Rx.Receiver) {
    && (forall id :: id in r.handling ==> id < r.nextId && Foreign(own, r.handling[id].e) && Raises(own, r.marks, r.handling[id]))
    && OneLive(own, r)
    && (forall k :: 0 <= k < |r.emitted| ==>
          Foreign(own, r.emitted[k]) && r.emitted[k].nonce <= Latest(r.marks, r.emitted[k].clientId))
    && Rx.Rising(r.emitted)
  }

  // The others are not live, and stay so when the marks rise.
  lemma OthersStayIdle(own: string, r: Rx.Receiver, id: nat, marks: Marks)
    requires OneLive(own, r) && id in r.handling && Rx.Live(own, r.marks, r.handling[id])
    requires forall c: string :: Latest(marks, c) >= Latest(r.marks, c)
    ensures forall other :: other in r.handling - {id} ==> !Rx.Live(own, marks, r.handling[other])
  {
    forall other | other in r.handling - {id} ensures !Rx.Live(own, marks, r.handling[other]) {
      assert !Rx.Live(own, r.marks, r.handling[other]);
    }
  }

  // A call that holds its snapshot writes it and emits.
  lemma WriteKeepsTidy(own: string, r: Rx.Receiver, id: nat)
    requires Tidy(own, r) && id in r.handling && r.handling[id].WritingMarks?
    ensures Tidy(own, Rx.Resume(own, r, id))
  {
    var h, r' := r.handling[id], Rx.Resume(own, r, id);
    OthersStayIdle(own, r, id, h.updated);
    assert OneLive(own, r');
    assert forall other :: other in r'.handling ==> !r'.handling[other].WritingMarks?;
  }

  lemma ReadKeepsTidy(own: string, r: Rx.Receiver, id: nat)
    requires Tidy(own, r) && id in r.handling && r.handling[id].ReadingMarks?
    ensures Tidy(own, Rx.Resume(own, r, id))
  {
  }

  lemma ResumeKeepsTidy(own: string, r: Rx.Receiver, id: nat)
    requires Tidy(own, r) && id in r.handling
    ensures Tidy(own, Rx.Resume(own, r, id))
  {
    if r.handling[id].WritingMarks? { WriteKeepsTidy(own, r, id); } else { ReadKeepsTidy(own, r, id); }
  }

  lemma FailKeepsTidy(own: string, r: Rx.Receiver, id: nat, persisted: bool)
    requires Tidy(own, r) && id in r.handling
    ensures Tidy(own, Rx.Fail(r, id, persisted))
  {
    var h := r.handling[id];
    if h.WritingMarks? { OthersStayIdle(own, r, id, h.updated); }
  }

  lemma StepKeepsTidy(own: string, r: Rx.Receiver, ev: Rx.Event)
    requires Tidy(own, r) && Rx.Allowed(own, r, ev)
    ensures Tidy(own, Rx.Step(own, r, ev))
  {
    match ev
    case Arrival(at, e) =>
    case Resumed(id) => if id in r.handling { ResumeKeepsTidy(own, r, id); }
    case Failed(id, persisted) => if id in r.handling { FailKeepsTidy(own, r, id, persisted); }
    case Restarted =>
  }

  lemma {:induction false} AllowedKeepsTidy(own: string, r: Rx.Receiver, evs: seq<Rx.Event>)
    requires Tidy(own, r) && Rx.AllowedFrom(own, r, evs)
    ensures Tidy(own, Rx.Run(own, r, evs))
  {
    if evs != [] {
      var n := |evs| - 1;
      forall k | 0 <= k < n ensures Rx.Allowed(own, Rx.Run(own, r, evs[..n][..k]), evs[..n][k]) {
        assert evs[..n][..k] == evs[..k];
      }
      AllowedKeepsTidy(own, r, evs[..n]);
      StepKeepsTidy(own, Rx.Run(own, r, evs[..n]), evs[n]);
    }
  }

  lemma ForgetIsTidy(own: string, r: Rx.Receiver)
    requires Rx.Inv(own, r) && Positive(r) && r.emitted == [] && OneLive(own, Forget(r))
    ensures Tidy(own, Forget(r))
  {
    forall id | id in r.handling && r.handling[id].WritingMarks? ensures Raises(own, map[], r.handling[id]) {
      WritingPositive(own, r, id);
    }
  }

  // A crash, and what was emitted is shown once more.
  lemma EmittedAgain(own: string, r: Rx.Receiver, e: Entry) returns (evs: seq<Rx.Event>)
    requires Accepts(own, r.marks, e)
    ensures Rx.AllowedFrom(own, r, evs) && Rx.Run(own, r, evs).emitted == r.emitted + [e]
  {
    var r1 := Rx.Step(own, r, Rx.Restarted);
    Rx.RunOne(own, r, Rx.Restarted);
    var rest := Rx.Redeliver(own, r1, 0, e);
    evs := [Rx.Restarted] + rest;
    assert [Rx.Restarted][..0] == [];
    Rx.RunConcat(own, r, [Rx.Restarted], rest);
    Rx.AllowedConcat(own, r, [Rx.Restarted], rest);
  }

  lemma EmittedDuplicates(own: string, r: Rx.Receiver) returns (evs: seq<Rx.Event>)
    requires Rx.Inv(own, r) && Positive(r) && r.emitted != []
    ensures Rx.AllowedFrom(own, Forget(r), evs) && !NoDuplicates(Rx.Run(own, Forget(r), evs).emitted)
  {
    var e := r.emitted[0];
    evs := EmittedAgain(own, Forget(r), e);
    assert SameMessage(r.emitted[0], e);
    Rx.DuplicateAtEnd(r.emitted, e);
  }

  // Two calls hold snapshots; the first to finish loses its mark if the other's snapshot does not have it.
  lemma TwoSnapshotsDuplicate(own: string, r: Rx.Receiver, first: nat, second: nat) returns (evs: seq<Rx.Event>)
    requires first in r.handling && second in r.handling && first != second
    requires r.handling[first].WritingMarks? && r.handling[second].WritingMarks?
    requires var e, h := r.handling[first].e, r.handling[second]; SameMessage(e, h.e) || Accepts(own, h.updated, e)
    ensures Rx.AllowedFrom(own, r, evs) && !NoDuplicates(Rx.Run(own, r, evs).emitted)
  {
    var e := r.handling[first].e;
    evs := Rx.FinishBoth(own, r, first, second);
    var r1 := Rx.Run(own, r, evs);
    assert r1.emitted[|r.emitted|] == e;
    if SameMessage(e, r.handling[second].e) {
      assert SameMessage(r1.emitted[|r.emitted|], r1.emitted[|r.emitted| + 1]);
    } else {
      var again := EmittedAgain(own, r1, e);
      Rx.RunConcat(own, r, evs, again);
      Rx.AllowedConcat(own, r, evs, again);
      evs := evs + again;
      assert SameMessage(r1.emitted[|r.emitted|], e);
      Rx.DuplicateAtEnd(r1.emitted, e);
    }
  }

  predicate HoldsMark(r: Rx.Receiver, id: nat) {
    && id in r.handling && r.handling[id].WritingMarks? && r.handling[id].e.Message?
    && Latest(r.handling[id].updated, r.handling[id].e.clientId) == r.handling[id].e.nonce
  }

  // The order that loses a mark: by nonce if they share a sender, else the full snapshot first.
  lemma TwoLiveFinish(own: string, r: Rx.Receiver, a: nat, b: nat) returns (evs: seq<Rx.Event>)
    requires HoldsMark(r, a) && HoldsMark(r, b) && a != b && Foreign(own, r.handling[a].e) && Foreign(own, r.handling[b].e)
    requires r.handling[b].updated == map[r.handling[b].e.clientId := r.handling[b].e.nonce] && r.handling[a].e.nonce > 0
    ensures Rx.AllowedFrom(own, r, evs) && !NoDuplicates(Rx.Run(own, r, evs).emitted)
  {
    var e, f := r.handling[a].e, r.handling[b].e;
    if e.clientId == f.clientId && e.nonce < f.nonce {
      evs := TwoSnapshotsDuplicate(own, r, b, a);
    } else {
      evs := TwoSnapshotsDuplicate(own, r, a, b);
    }
  }

  // A live call reads the empty marks.
  lemma ReadEmpty(own: string, r: Rx.Receiver, id: nat)
    requires r.marks == map[] && id in r.handling && r.handling[id].ReadingMarks? && Rx.Live(own, r.marks, r.handling[id])
    ensures var h := r.handling[id];
      Rx.Run(own, r, [Rx.Resumed(id)]) == r.(handling := r.handling[id := Rx.WritingMarks(h.at, h.e, map[h.e.clientId := h.e.nonce])])
    ensures Rx.AllowedFrom(own, r, [Rx.Resumed(id)])
  {
    Rx.RunOne(own, r, Rx.Resumed(id));
  }

  // Both calls have read the marks, one of them the empty ones.
  lemma TwoLiveRead(own: string, r: Rx.Receiver, a: nat, b: nat) returns (evs: seq<Rx.Event>)
    requires Rx.Inv(own, r) && Positive(r) && a in r.handling && b in r.handling && a != b && r.handling[b].ReadingMarks?
    requires Rx.Live(own, map[], r.handling[a]) && Rx.Live(own, map[], r.handling[b])
    ensures Rx.AllowedFrom(own, Forget(r), evs)
    ensures var r' := Rx.Run(own, Forget(r), evs);
      && HoldsMark(r', a) && HoldsMark(r', b) && r'.handling[a].e == r.handling[a].e && r'.handling[b].e == r.handling[b].e
      && r'.handling[b].updated == map[r'.handling[b].e.clientId := r'.handling[b].e.nonce]
  {
    var r0 := Forget(r);
    ReadEmpty(own, r0, b);
    evs := [Rx.Resumed(b)];
    if r.handling[a].ReadingMarks? {
      var r1 := Rx.Run(own, r0, evs);
      ReadEmpty(own, r1, a);
      Rx.RunConcat(own, r0, evs, [Rx.Resumed(a)]);
      Rx.AllowedConcat(own, r0, evs, [Rx.Resumed(a)]);
      evs := evs + [Rx.Resumed(a)];
    }
  }

  lemma TwoLiveDuplicate(own: string, r: Rx.Receiver, a: nat, b: nat) returns (evs: seq<Rx.Event>)
    requires Rx.Inv(own, r) && Positive(r) && a in r.handling && b in r.handling && a != b && r.handling[b].ReadingMarks?
    requires Rx.Live(own, map[], r.handling[a]) && Rx.Live(own, map[], r.handling[b])
    ensures Rx.AllowedFrom(own, Forget(r), evs) && !NoDuplicates(Rx.Run(own, Forget(r), evs).emitted)
  {
    evs := TwoLiveRead(own, r, a, b);
    var r1 := Rx.Run(own, Forget(r), evs);
    LivePositive(own, r, a);
    var rest := TwoLiveFinish(own, r1, a, b);
    Rx.RunConcat(own, Forget(r), evs, rest);
    Rx.AllowedConcat(own, Forget(r), evs, rest);
    evs := evs + rest;
  }

  lemma LivePositive(own: string, r: Rx.Receiver, id: nat)
    requires Rx.Inv(own, r) && Positive(r) && id in r.handling && Rx.Live(own, map[], r.handling[id])
    ensures Foreign(own, r.handling[id].e) && r.handling[id].e.nonce > 0
  {
  }

  lemma ForgettingDuplicates(own: string, r: Rx.Receiver) returns (evs: seq<Rx.Event>)
    requires Rx.Inv(own, r) && Positive(r) && (r.emitted != [] || !OneLive(own, Forget(r)))
    ensures Rx.AllowedFrom(own, Forget(r), evs) && !NoDuplicates(Rx.Run(own, Forget(r), evs).emitted)
  {
    if r.emitted != [] {
      evs := EmittedDuplicates(own, r);
    } else {
      var a, b :| a in r.handling && b in r.handling && a != b
                  && Rx.Live(own, map[], r.handling[a]) && Rx.Live(own, map[], r.handling[b]);
      if r.handling[b].ReadingMarks? {
        evs := TwoLiveDuplicate(own, r, a, b);
      } else {
        evs := TwoLiveDuplicate(own, r, b, a);
      }
    }
  }

  /** The exact condition on clear(), for the clearing client's own receiving: no guarded continuation,
      crashes and replays included, emits a message twice, if and only if it had emitted nothing on the
      channel yet and has at most one call in flight that may emit. */
  lemma ClearKeepsAtMostOnceIff(own: string, r: Rx.Receiver)
    requires Rx.Inv(own, r) && Positive(r)
    ensures r.emitted == [] && OneLive(own, Forget(r)) <==>
      forall evs :: Rx.AllowedFrom(own, Forget(r), evs) ==> NoDuplicates(Rx.Run(own, Forget(r), evs).emitted)
  {
    if r.emitted == [] && OneLive(own, Forget(r)) {
      ForgetIsTidy(own, r);
      forall evs | Rx.AllowedFrom(own, Forget(r), evs) ensures NoDuplicates(Rx.Run(own, Forget(r), evs).emitted) {
        AllowedKeepsTidy(own, Forget(r), evs);
        D.RisingHasNoDuplicates(Rx.Run(own, Forget(r), evs).emitted);
      }
    } else {
      var evs := ForgettingDuplicates(own, r);
    }
  }
}
