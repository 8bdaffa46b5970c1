// One connection per url, shared by any number of SharedCentrifuge instances through reference
// counts (packages/core/src/transport/websocket/shared-centrifuge.ts).

module SharedConnection {

  // `counts` is the subscriptions map; `wire` the subscriptions of the underlying client; `closing`
  // says that a listener is armed that deletes the context at the next "disconnected" event.
  datatype Context = Context(refcount: int, counts: map<string, int>, wire: set<string>, closing: bool)

  type Contexts = map<string, Context>

  datatype Instance = Instance(url: string, channels: set<string>, disconnected: bool)

  const NEW_CONTEXT := Context(0, map[], {}, false)

  // ---- What one call does to the contexts and to its own instance ----

  function Construct(contexts: Contexts, url: string): Contexts {
    var context := if url in contexts then contexts[url] else NEW_CONTEXT;
    contexts[url := context.(refcount := context.refcount + 1)]
  }

  function Retain(context: Context, channel: string): Context {
    if channel in context.counts
    then context.(counts := context.counts[channel := context.counts[channel] + 1])
    else context.(counts := context.counts[channel := 1], wire := context.wire + {channel})
  }

  // decrementChannelRef
  function Release(context: Context, channel: string): Context {
    if channel !in context.counts then context
    else if context.counts[channel] == 1
    then context.(counts := context.counts - {channel}, wire := context.wire - {channel})
    else context.(counts := context.counts[channel := context.counts[channel] - 1])
  }

  // The channels of a set, released in any order.
  function ReleaseAll(context: Context, channels: set<string>): Context {
    context.(
    counts := map c | c in context.counts && !(c in channels && context.counts[c] == 1)
                :: if c in channels then context.counts[c] - 1 else context.counts[c],
    wire := context.wire - set c | c in channels && c in context.counts && context.counts[c] == 1)
  }

  function Subscribe(contexts: Contexts, self: Instance, channel: string): (Contexts, Instance) {
    if self.url !in contexts then (contexts, self)   // throws
    else
      (if channel in self.channels then contexts
       else contexts[self.url := Retain(contexts[self.url], channel)],
       self.(channels := self.channels + {channel}))
  }

  function Unsubscribe(contexts: Contexts, self: Instance, channel: string): (Contexts, Instance) {
    (if self.url in contexts then contexts[self.url := Release(contexts[self.url], channel)] else contexts,
     self.(channels := self.channels - {channel}))
  }

  function Leave(contexts: Contexts, self: Instance): (Contexts, Instance) {
    if self.disconnected || self.url !in contexts then (contexts, self)
    else
      var released := ReleaseAll(contexts[self.url], self.channels);
      var left := released.(refcount := released.refcount - 1);
      (contexts[self.url := if left.refcount == 0 then left.(closing := true) else left],
       Instance(self.url, {}, true))
  }

  // The armed listener runs.
  function FireDisconnected(contexts: Contexts, url: string): Contexts {
    if url in contexts && contexts[url].closing then contexts - {url} else contexts
  }

  predicate Holds(contexts: Contexts, self: Instance, channel: string) {
    channel in self.channels && self.url in contexts && channel in contexts[self.url].counts
  }

  // ---- The class ----

  // SharedCentrifuge.contexts, the static field all instances share.
  class Statics {
    var contexts: Contexts

    constructor ()
      ensures contexts == map[]
    {
      contexts := map[];
    }

    method OnDisconnected(url: string)
      modifies this
      ensures contexts == FireDisconnected(old(contexts), url)
    {
      if url in contexts && contexts[url].closing { contexts := contexts - {url}; }
    }
  }

  class SharedCentrifuge {
    const statics: Statics
    const url: string
    var channels: set<string>
    var disconnected: bool

    ghost function View(): Instance reads this { Instance(url, channels, disconnected) }

    constructor (statics: Statics, url: string)
      modifies statics
      ensures this.statics == statics && View() == Instance(url, {}, false)
      ensures statics.contexts == Construct(old(statics.contexts), url)
    {
      this.statics, this.url, channels, disconnected := statics, url, {}, false;
      new;
      if url !in statics.contexts { statics.contexts := statics.contexts[url := NEW_CONTEXT]; }
      var context := statics.contexts[url];
      statics.contexts := statics.contexts[url := context.(refcount := context.refcount + 1)];
    }

    /** Throws when the context is gone. */
    method NewSubscription(channel: string) returns (ok: bool)
      modifies this`channels, statics
      ensures ok <==> url in old(statics.contexts)
      ensures (statics.contexts, View()) == Subscribe(old(statics.contexts), old(View()), channel)
    {
      if url !in statics.contexts { return false; }
      if channel !in channels {
        var context := statics.contexts[url];
        if channel !in context.counts {
          context := context.(counts := context.counts[channel := 1], wire := context.wire + {channel});
        } else {
          context := context.(counts := context.counts[channel := context.counts[channel] + 1]);
        }
        statics.contexts := statics.contexts[url := context];
      }
      channels := channels + {channel};
      return true;
    }

    method GetSubscription(channel: string) returns (found: bool)
      ensures found <==> Holds(statics.contexts, View(), channel)
    {
      if channel !in channels { return false; }
      if url !in statics.contexts { return false; }
      return channel in statics.contexts[url].counts;
    }

    method Subscriptions() returns (held: set<string>)
      ensures held == set c | c in channels && Holds(statics.contexts, View(), c)
    {
      if url !in statics.contexts { return {}; }
      var counts := statics.contexts[url].counts;
      held := set c | c in channels && c in counts;
    }

    method DecrementChannelRef(channel: string)
      modifies statics
      ensures statics.contexts == if url in old(statics.contexts)
        then old(statics.contexts)[url := Release(old(statics.contexts)[url], channel)] else old(statics.contexts)
    {
      if url !in statics.contexts { return; }
      var context := statics.contexts[url];
      if channel !in context.counts {
        assert statics.contexts[url := context] == statics.contexts;
        return;
      }
      var count := context.counts[channel] - 1;
      context := if count == 0
        then context.(counts := context.counts - {channel}, wire := context.wire - {channel})
        else context.(counts := context.counts[channel := count]);
      statics.contexts := statics.contexts[url := context];
    }

    method RemoveSubscription(channel: string)
      modifies this`channels, statics
      ensures (statics.contexts, View()) == Unsubscribe(old(statics.contexts), old(View()), channel)
    {
      DecrementChannelRef(channel);
      channels := channels - {channel};
    }

    /** Gives up every channel and the reference to the connection; the last one out closes it. */
    method Disconnect()
      modifies this`channels, this`disconnected, statics
      ensures (statics.contexts, View()) == Leave(old(statics.contexts), old(View()))
    {
      if disconnected || url !in statics.contexts { return; }
      disconnected := true;
      ghost var before := statics.contexts;
      var rest := channels;
      assert ReleaseAll(before[url], channels - rest) == before[url];
      assert before[url := before[url]] == before;
      while rest != {}
        invariant rest <= channels && channels == old(channels) && disconnected
        invariant statics.contexts == before[url := ReleaseAll(before[url], channels - rest)]
        decreases rest
      {
        var channel :| channel in rest;
        ReleaseOneMore(before[url], channels - rest, channel);
        assert channels - (rest - {channel}) == channels - rest + {channel};
        DecrementChannelRef(channel);
        rest := rest - {channel};
      }
      assert channels - rest == channels;
      channels := {};
      var context := statics.contexts[url];
      context := context.(refcount := context.refcount - 1);
      if context.refcount == 0 { context := context.(closing := true); }
      statics.contexts := statics.contexts[url := context];
      assert statics.contexts == before[url := context];
    }

    // ---- The transport's own uses of it (packages/core/src/transport/websocket/index.ts) ----

    /** WebSocketTransport.clear, as far as the subscription goes. */
    method ClearChannel(channel: string)
      modifies this`channels, statics
      ensures if Holds(old(statics.contexts), old(View()), channel)
              then (statics.contexts, View()) == Unsubscribe(old(statics.contexts), old(View()), channel)
              else (statics.contexts, View()) == (old(statics.contexts), old(View()))
    {
      var found := GetSubscription(channel);
      if found { RemoveSubscription(channel); }
    }

    /** WebSocketTransport.disconnect. If the transport's own state is "disconnected" it returns at once
        and the instance keeps its channels and its reference; otherwise removing every subscription
        first changes nothing in the end: it leaves as Disconnect does. */
    method DisconnectTransport(stateDisconnected: bool)
      requires disconnected ==> channels == {}
      requires url in statics.contexts ==> channels <= statics.contexts[url].counts.Keys
      requires url in statics.contexts ==> forall c :: c in statics.contexts[url].counts ==> statics.contexts[url].counts[c] >= 1
      modifies this`channels, this`disconnected, statics
      ensures (statics.contexts, View()) == if stateDisconnected then (old(statics.contexts), old(View()))
                                           else Leave(old(statics.contexts), old(View()))
    {
      if stateDisconnected { return; }
      ghost var before, mine, live := statics.contexts, channels, !disconnected && url in statics.contexts;
      var subs := Subscriptions();
      assert subs == if live then mine else {};
      var rest := subs;
      if live {
        assert ReleaseAll(before[url], mine - rest) == before[url];
        assert before[url := before[url]] == before;
      }
      while rest != {}
        invariant disconnected == old(disconnected) && (live || rest == {})
        invariant !live ==> channels == mine && statics.contexts == before
        invariant live ==> rest <= mine && channels == rest
        invariant live ==> statics.contexts == before[url := ReleaseAll(before[url], mine - rest)]
        decreases rest
      {
        var channel :| channel in rest;
        ReleaseOneMore(before[url], mine - rest, channel);
        assert mine - (rest - {channel}) == mine - rest + {channel};
        assert channel in channels;   // every removal is of a channel this instance holds
        RemoveSubscription(channel);
        rest := rest - {channel};
      }
      ghost var released := if live then ReleaseAll(before[url], mine) else NEW_CONTEXT;
      if live {
        assert mine - rest == mine;
        assert statics.contexts == before[url := released];
        assert ReleaseAll(released, {}) == released;
      }
      Disconnect();
      assert live ==> statics.contexts == before[url := statics.contexts[url]];
    }
  }

  // A proxy gives its channel back at most once, however often its unsubscribe() (here Close) is called.
  class SubscriptionProxy {
    const parent: SharedCentrifuge
    const channel: string
    var hasUnsubscribed: bool

    constructor (parent: SharedCentrifuge, channel: string)
      ensures this.parent == parent && this.channel == channel && !hasUnsubscribed
    {
      this.parent, this.channel, hasUnsubscribed := parent, channel, false;
    }

    method Close()
      modifies this, parent`channels, parent.statics
      ensures hasUnsubscribed
      ensures (parent.statics.contexts, parent.View())
        == if old(hasUnsubscribed) then (old(parent.statics.contexts), old(parent.View()))
           else Unsubscribe(old(parent.statics.contexts), old(parent.View()), channel)
    {
      if hasUnsubscribed { return; }
      hasUnsubscribed := true;
      parent.RemoveSubscription(channel);
    }
  }

  lemma ReleaseOneMore(context: Context, done: set<string>, channel: string)
    requires channel !in done
    ensures Release(ReleaseAll(context, done), channel) == ReleaseAll(context, done + {channel})
  {
  }

  // ---- Any number of instances ----

  datatype World = World(contexts: Contexts, instances: map<nat, Instance>, next: nat)

  const EMPTY := World(map[], map[], 0)

  datatype Op =
    | New(url: string)
    | NewSubscription(i: nat, channel: string)
    | RemoveSubscription(i: nat, channel: string)
    | Disconnect(i: nat)
    | DisconnectedEvent(url: string)

  function Update(w: World, i: nat, to: (Contexts, Instance)): World {
    w.(contexts := to.0, instances := w.instances[i := to.1])
  }

  function Step(w: World, op: Op): World {
    match op
    case New(url) =>
      World(Construct(w.contexts, url), w.instances[w.next := Instance(url, {}, false)], w.next + 1)
    case NewSubscription(i, channel) =>
      if i in w.instances then Update(w, i, Subscribe(w.contexts, w.instances[i], channel)) else w
    case RemoveSubscription(i, channel) =>
      if i in w.instances then Update(w, i, Unsubscribe(w.contexts, w.instances[i], channel)) else w
    case Disconnect(i) =>
      if i in w.instances then Update(w, i, Leave(w.contexts, w.instances[i])) else w
    case DisconnectedEvent(url) => w.(contexts := FireDisconnected(w.contexts, url))
  }

  // ---- Exact counts ----

  function Live(w: World, url: string): set<nat> {
    set i | i in w.instances && w.instances[i].url == url && !w.instances[i].disconnected
  }

  function Holders(w: World, url: string, channel: string): set<nat> {
    set i | i in w.instances && w.instances[i].url == url && !w.instances[i].disconnected && channel in w.instances[i].channels
  }

  ghost predicate CountRight(w: World, url: string, channel: string)
    requires url in w.contexts
  {
    var context := w.contexts[url];
    && (channel in context.counts <==> Holders(w, url, channel) != {})
    && (channel in context.counts ==> context.counts[channel] == |Holders(w, url, channel)|)
    && (channel in context.wire <==> channel in context.counts)
  }

  ghost predicate ExactContext(w: World, url: string)
    requires url in w.contexts
  {
    && w.contexts[url].refcount == |Live(w, url)|
    && (w.contexts[url].closing <==> w.contexts[url].refcount == 0)
    && (forall channel :: CountRight(w, url, channel))
  }

  /** Every count is the number of live instances behind it, and nothing is left of the others. */
  ghost predicate Exact(w: World) {
    && (forall i :: i in w.instances ==> i < w.next)
    && (forall i :: i in w.instances && w.instances[i].disconnected ==> w.instances[i].channels == {})
    && (forall i :: i in w.instances && !w.instances[i].disconnected ==> w.instances[i].url in w.contexts)
    && (forall url :: url in w.contexts ==> ExactContext(w, url))
  }

  // A url is not entered again between the last disconnect and the event that deletes its context;
  // only live instances subscribe; only a held channel is removed, or one nobody has.
  predicate Allowed(w: World, op: Op) {
    match op
    case New(url) => url in w.contexts ==> !w.contexts[url].closing
    case NewSubscription(i, channel) => i in w.instances && w.instances[i].disconnected ==> w.instances[i].url !in w.contexts
    case RemoveSubscription(i, channel) =>
      i in w.instances && channel !in w.instances[i].channels && w.instances[i].url in w.contexts ==>
        channel !in w.contexts[w.instances[i].url].counts
    case Disconnect(i) => true
    case DisconnectedEvent(url) => true
  }

  // The context did not change, nor did anything it counts.
  lemma SameContextExact(w: World, w': World, url: string)
    requires url in w.contexts && ExactContext(w, url) && url in w'.contexts && w'.contexts[url] == w.contexts[url]
    requires Live(w', url) == Live(w, url)
    requires forall channel :: Holders(w', url, channel) == Holders(w, url, channel)
    ensures ExactContext(w', url)
  {
    forall channel ensures CountRight(w', url, channel) { assert CountRight(w, url, channel); }
  }

  lemma EnteredContextExact(w: World, url: string)
    requires Exact(w) && Allowed(w, New(url))
    ensures ExactContext(Step(w, New(url)), url)
  {
    var w' := Step(w, New(url));
    assert Live(w', url) == Live(w, url) + {w.next};
    if url in w.contexts { assert ExactContext(w, url); } else { assert Live(w, url) == {}; }
    forall channel ensures CountRight(w', url, channel) {
      assert Holders(w', url, channel) == Holders(w, url, channel);
      if url in w.contexts { assert CountRight(w, url, channel); } else { assert Holders(w, url, channel) == {}; }
    }
  }

  lemma NewKeepsExact(w: World, url: string)
    requires Exact(w) && Allowed(w, New(url))
    ensures Exact(Step(w, New(url)))
  {
    var w' := Step(w, New(url));
    EnteredContextExact(w, url);
    forall u | u in w'.contexts && u != url ensures ExactContext(w', u) {
      assert Live(w', u) == Live(w, u);
      forall channel ensures Holders(w', u, channel) == Holders(w, u, channel) {}
      SameContextExact(w, w', u);
    }
  }

  // Instance i changed, and no other, and only its own context.
  ghost predicate OnlyInstance(w: World, w': World, i: nat) {
    && i in w.instances && w'.instances.Keys == w.instances.Keys && w'.next == w.next
    && w'.instances[i].url == w.instances[i].url
    && (forall j :: j in w.instances && j != i ==> w'.instances[j] == w.instances[j])
    && w'.contexts.Keys == w.contexts.Keys
    && (forall url :: url in w.contexts && url != w.instances[i].url ==> w'.contexts[url] == w.contexts[url])
  }

  lemma OtherContextsExact(w: World, w': World, i: nat, url: string)
    requires OnlyInstance(w, w', i) && w.instances[i].url != url && url in w.contexts && ExactContext(w, url)
    ensures ExactContext(w', url)
  {
    assert Live(w', url) == Live(w, url);
    forall channel ensures Holders(w', url, channel) == Holders(w, url, channel) {}
    SameContextExact(w, w', url);
  }

  lemma HoldersAfterSubscribe(w: World, i: nat, channel: string, c: string)
    requires i in w.instances && !w.instances[i].disconnected && w.instances[i].url in w.contexts
    ensures var url := w.instances[i].url; var after := Holders(Step(w, NewSubscription(i, channel)), url, c);
      && after == (if c == channel then Holders(w, url, c) + {i} else Holders(w, url, c))
      && (i in Holders(w, url, c) <==> c in w.instances[i].channels)
      && (c == channel && c !in w.instances[i].channels ==> |after| == |Holders(w, url, c)| + 1)
  {
    var url := w.instances[i].url;
    var before, after := Holders(w, url, c), Holders(Step(w, NewSubscription(i, channel)), url, c);
    assert after == if c == channel then before + {i} else before;
  }

  lemma SubscribedCountRight(w: World, i: nat, channel: string, c: string)
    requires Exact(w) && i in w.instances && !w.instances[i].disconnected
    ensures CountRight(Step(w, NewSubscription(i, channel)), w.instances[i].url, c)
  {
    var self := w.instances[i];
    assert ExactContext(w, self.url) && CountRight(w, self.url, c);
    HoldersAfterSubscribe(w, i, channel, c);
    if c == channel && c in self.channels { assert Holders(w, self.url, c) + {i} == Holders(w, self.url, c); }
  }

  lemma SubscribeKeepsExact(w: World, i: nat, channel: string)
    requires Exact(w) && i in w.instances && !w.instances[i].disconnected
    ensures Exact(Step(w, NewSubscription(i, channel)))
  {
    var w', self := Step(w, NewSubscription(i, channel)), w.instances[i];
    assert Live(w', self.url) == Live(w, self.url);
    assert ExactContext(w, self.url);
    forall c ensures CountRight(w', self.url, c) { SubscribedCountRight(w, i, channel, c); }
    forall url | url in w'.contexts && url != self.url ensures ExactContext(w', url) {
      OtherContextsExact(w, w', i, url);
    }
  }

  lemma HoldersAfterUnsubscribe(w: World, i: nat, channel: string, c: string)
    requires i in w.instances && !w.instances[i].disconnected && channel in w.instances[i].channels
    ensures var url := w.instances[i].url; var after := Holders(Step(w, RemoveSubscription(i, channel)), url, c);
      && after == (if c == channel then Holders(w, url, c) - {i} else Holders(w, url, c))
      && (c == channel ==> i in Holders(w, url, c) && |after| == |Holders(w, url, c)| - 1)
  {
    var url := w.instances[i].url;
    var before, after := Holders(w, url, c), Holders(Step(w, RemoveSubscription(i, channel)), url, c);
    assert after == if c == channel then before - {i} else before;
  }

  lemma UnsubscribedCountRight(w: World, i: nat, channel: string, c: string)
    requires Exact(w) && i in w.instances && channel in w.instances[i].channels
    ensures CountRight(Step(w, RemoveSubscription(i, channel)), w.instances[i].url, c)
  {
    var self := w.instances[i];
    assert ExactContext(w, self.url) && CountRight(w, self.url, c);
    HoldersAfterUnsubscribe(w, i, channel, c);
  }

  lemma UnsubscribeKeepsExact(w: World, i: nat, channel: string)
    requires Exact(w) && i in w.instances && channel in w.instances[i].channels
    ensures Exact(Step(w, RemoveSubscription(i, channel)))
  {
    var w', self := Step(w, RemoveSubscription(i, channel)), w.instances[i];
    assert Live(w', self.url) == Live(w, self.url);
    assert ExactContext(w, self.url);
    forall c ensures CountRight(w', self.url, c) { UnsubscribedCountRight(w, i, channel, c); }
    forall url | url in w'.contexts && url != self.url ensures ExactContext(w', url) {
      OtherContextsExact(w, w', i, url);
    }
  }

  // Removing what nobody has changes nothing.
  lemma UnsubscribeNothing(w: World, i: nat, channel: string)
    requires Exact(w) && i in w.instances && channel !in w.instances[i].channels
    requires Allowed(w, RemoveSubscription(i, channel))
    ensures Step(w, RemoveSubscription(i, channel)) == w
  {
    var self := w.instances[i];
    assert self.channels - {channel} == self.channels;
    assert w.instances[i := self] == w.instances;
    if self.url in w.contexts { assert w.contexts[self.url := w.contexts[self.url]] == w.contexts; }
  }

  lemma LeftCountRight(w: World, i: nat, c: string)
    requires Exact(w) && i in w.instances && !w.instances[i].disconnected
    ensures CountRight(Step(w, Disconnect(i)), w.instances[i].url, c)
  {
    var w', self := Step(w, Disconnect(i)), w.instances[i];
    assert ExactContext(w, self.url) && CountRight(w, self.url, c);
    assert Holders(w', self.url, c) == Holders(w, self.url, c) - {i};
    assert i in Holders(w, self.url, c) <==> c in self.channels;
    assert c in self.channels ==> |Holders(w', self.url, c)| == |Holders(w, self.url, c)| - 1;
  }

  lemma LeaveKeepsExact(w: World, i: nat)
    requires Exact(w) && i in w.instances && !w.instances[i].disconnected
    ensures Exact(Step(w, Disconnect(i)))
  {
    var w', self := Step(w, Disconnect(i)), w.instances[i];
    assert ExactContext(w, self.url);
    assert i in Live(w, self.url) && Live(w', self.url) == Live(w, self.url) - {i};
    forall c ensures CountRight(w', self.url, c) { LeftCountRight(w, i, c); }
    forall url | url in w'.contexts && url != self.url ensures ExactContext(w', url) {
      OtherContextsExact(w, w', i, url);
    }
  }

  lemma EventKeepsExact(w: World, url: string)
    requires Exact(w)
    ensures Exact(Step(w, DisconnectedEvent(url)))
  {
    var w' := Step(w, DisconnectedEvent(url));
    if url in w.contexts && w.contexts[url].closing {
      assert ExactContext(w, url);
      forall i | i in w.instances && !w.instances[i].disconnected ensures w.instances[i].url != url {
        assert i in Live(w, w.instances[i].url);
      }
    }
    forall u | u in w'.contexts ensures ExactContext(w', u) {
      assert Live(w', u) == Live(w, u);
      forall channel ensures Holders(w', u, channel) == Holders(w, u, channel) {}
      SameContextExact(w, w', u);
    }
  }

  lemma Untouched(w: World, i: nat)
    requires i in w.instances
    ensures Update(w, i, (w.contexts, w.instances[i])) == w
  {
    assert w.instances[i := w.instances[i]] == w.instances;
  }

  lemma AllowedKeepsExact(w: World, op: Op)
    requires Exact(w) && Allowed(w, op)
    ensures Exact(Step(w, op))
  {
    match op
    case New(url) => NewKeepsExact(w, url);
    case NewSubscription(i, channel) =>
      if i in w.instances {
        if w.instances[i].disconnected { Untouched(w, i); } else { SubscribeKeepsExact(w, i, channel); }
      }
    case RemoveSubscription(i, channel) =>
      if i in w.instances {
        if channel in w.instances[i].channels {
          UnsubscribeKeepsExact(w, i, channel);
        } else {
          UnsubscribeNothing(w, i, channel);
        }
      }
    case Disconnect(i) =>
      if i in w.instances {
        if w.instances[i].disconnected { Untouched(w, i); } else { LeaveKeepsExact(w, i); }
      }
    case DisconnectedEvent(url) => EventKeepsExact(w, url);
  }

  /** The counts stay exact under an operation if and only if it is allowed. */
  lemma ExactIff(w: World, op: Op)
    requires Exact(w)
    ensures Exact(Step(w, op)) <==> Allowed(w, op)
  {
    if Allowed(w, op) {
      AllowedKeepsExact(w, op);
    } else {
      var w' := Step(w, op);
      match op
      case New(url) =>
        assert ExactContext(w, url);
        assert !ExactContext(w', url);
      case NewSubscription(i, channel) =>
        assert channel in w'.instances[i].channels;
      case RemoveSubscription(i, channel) =>
        var url := w.instances[i].url;
        assert ExactContext(w, url) && CountRight(w, url, channel);
        assert Holders(w', url, channel) == Holders(w, url, channel);
        assert !CountRight(w', url, channel);
    }
  }

  // ---- Against private clients ----

  // What instance i would have subscribed to with a client of its own.
  type Private = map<nat, set<string>>

  function StepPrivate(p: Private, next: nat, op: Op): Private {
    match op
    case New(_) => p[next := {}]
    case NewSubscription(i, channel) => if i in p then p[i := p[i] + {channel}] else p
    case RemoveSubscription(i, channel) => if i in p then p[i := p[i] - {channel}] else p
    case Disconnect(i) => if i in p then p[i := {}] else p
    case DisconnectedEvent(_) => p
  }

  // Nobody uses an instance after disconnecting it.
  predicate OnLive(w: World, op: Op) {
    match op
    case NewSubscription(i, _) => i in w.instances && !w.instances[i].disconnected
    case RemoveSubscription(i, channel) => i in w.instances && channel in w.instances[i].channels
    case _ => true
  }

  function RunShared(ops: seq<Op>): World {
    if ops == [] then EMPTY else Step(RunShared(ops[..|ops| - 1]), ops[|ops| - 1])
  }

  function RunPrivate(ops: seq<Op>): Private {
    if ops == [] then map[]
    else StepPrivate(RunPrivate(ops[..|ops| - 1]), RunShared(ops[..|ops| - 1]).next, ops[|ops| - 1])
  }

  ghost predicate GoodRun(ops: seq<Op>) {
    forall k :: 0 <= k < |ops| ==> Allowed(RunShared(ops[..k]), ops[k]) && OnLive(RunShared(ops[..k]), ops[k])
  }

  ghost predicate Mirrors(w: World, p: Private) {
    w.instances.Keys == p.Keys && forall i :: i in p ==> w.instances[i].channels == p[i]
  }

  lemma StepMirrors(w: World, p: Private, op: Op)
    requires Exact(w) && Mirrors(w, p) && OnLive(w, op)
    ensures Mirrors(Step(w, op), StepPrivate(p, w.next, op))
  {
  }

  lemma GoodFront(ops: seq<Op>)
    requires GoodRun(ops) && ops != []
    ensures var n := |ops| - 1;
      GoodRun(ops[..n]) && Allowed(RunShared(ops[..n]), ops[n]) && OnLive(RunShared(ops[..n]), ops[n])
  {
    var n := |ops| - 1;
    forall k | 0 <= k < n
      ensures Allowed(RunShared(ops[..n][..k]), ops[..n][k]) && OnLive(RunShared(ops[..n][..k]), ops[..n][k])
    {
      assert ops[..n][..k] == ops[..k];
    }
  }

  lemma {:induction false} GoodRunInv(ops: seq<Op>)
    requires GoodRun(ops)
    ensures Exact(RunShared(ops)) && Mirrors(RunShared(ops), RunPrivate(ops))
  {
    if ops != [] {
      var n := |ops| - 1;
      GoodFront(ops);
      GoodRunInv(ops[..n]);
      AllowedKeepsExact(RunShared(ops[..n]), ops[n]);
      StepMirrors(RunShared(ops[..n]), RunPrivate(ops[..n]), ops[n]);
    }
  }

  /** Refinement: whatever the interleaving, every instance's getSubscription and subscriptions answer
      as its own private client would, the real subscriptions of a url are exactly the union of the
      live instances' channels, and an instance can always subscribe as long as it is live. */
  lemma SharedRefinesPrivate(ops: seq<Op>, i: nat)
    requires GoodRun(ops) && i in RunPrivate(ops)
    ensures var w, p := RunShared(ops), RunPrivate(ops);
      && i in w.instances
      && (forall channel :: Holds(w.contexts, w.instances[i], channel) <==> channel in p[i])
      && (!w.instances[i].disconnected ==> w.instances[i].url in w.contexts)
      && (forall url, channel :: url in w.contexts ==>
            (channel in w.contexts[url].wire <==> exists j :: j in Holders(w, url, channel)))
  {
    GoodRunInv(ops);
    var w, p := RunShared(ops), RunPrivate(ops);
    forall channel ensures Holds(w.contexts, w.instances[i], channel) <==> channel in p[i] {
      if channel in p[i] {
        assert ExactContext(w, w.instances[i].url) && CountRight(w, w.instances[i].url, channel);
        assert i in Holders(w, w.instances[i].url, channel);
      }
    }
    forall url, channel | url in w.contexts
      ensures channel in w.contexts[url].wire <==> exists j :: j in Holders(w, url, channel)
    {
      assert ExactContext(w, url) && CountRight(w, url, channel);
    }
  }

  /** No operation of one instance takes a real subscription away from another that holds it. */
  lemma OthersKeepTheirs(ops: seq<Op>, op: Op, j: nat, channel: string)
    requires GoodRun(ops) && Allowed(RunShared(ops), op) && OnLive(RunShared(ops), op)
    requires j in RunShared(ops).instances && channel in RunShared(ops).instances[j].channels
    requires op != RemoveSubscription(j, channel) && op != Disconnect(j)
    ensures var w' := Step(RunShared(ops), op); var url := RunShared(ops).instances[j].url;
      j in w'.instances && channel in w'.instances[j].channels && url in w'.contexts && channel in w'.contexts[url].wire
  {
    GoodRunInv(ops);
    var w := RunShared(ops);
    AllowedKeepsExact(w, op);
    var w', url := Step(w, op), w.instances[j].url;
    assert !w'.instances[j].disconnected;
    assert ExactContext(w', url) && CountRight(w', url, channel);
    assert j in Holders(w', url, channel);
  }

  /** The one way to lose a live connection: enter a url while its context is being closed. When the
      pending event fires, the new instance is left without a context and can no longer subscribe. */
  lemma EnteringWhileClosingStrands(w: World, url: string, channel: string)
    requires Exact(w) && url in w.contexts && w.contexts[url].closing
    ensures var w' := Step(Step(w, New(url)), DisconnectedEvent(url));
      && w.next in w'.instances && !w'.instances[w.next].disconnected
      && url !in w'.contexts
      && var (contexts, self) := Subscribe(w'.contexts, w'.instances[w.next], channel);
      !Holds(contexts, self, channel)
  {
  }

  // ---- Who is live, and which contexts are there ----

  // How an operation changes who is live on a url.
  lemma WhoIsLive(w: World, op: Op, url: string)
    requires Exact(w)
    ensures Live(Step(w, op), url) ==
      match op
      case New(u) => if u == url then Live(w, url) + {w.next} else Live(w, url)
      case Disconnect(i) => Live(w, url) - {i}
      case _ => Live(w, url)
  {
    forall j ensures j in Live(Step(w, op), url) <==> LiveAfter(w, op, url, j) { WhoIsLiveOne(w, op, url, j); }
  }

  predicate LiveOn(w: World, url: string, j: nat) {
    j in w.instances && w.instances[j].url == url && !w.instances[j].disconnected
  }

  predicate LiveAfter(w: World, op: Op, url: string, j: nat) {
    match op
    case New(u) => LiveOn(w, url, j) || (u == url && j == w.next)
    case Disconnect(i) => LiveOn(w, url, j) && j != i
    case _ => LiveOn(w, url, j)
  }

  lemma WhoIsLiveOne(w: World, op: Op, url: string, j: nat)
    requires Exact(w)
    ensures LiveOn(Step(w, op), url, j) <==> LiveAfter(w, op, url, j)
  {
  }

  // How many instances a run has made; they are numbered in their order.
  function Made(ops: seq<Op>): nat {
    if ops == [] then 0 else Made(ops[..|ops| - 1]) + if ops[|ops| - 1].New? then 1 else 0
  }

  lemma {:induction false} MadeIsNext(ops: seq<Op>)
    ensures RunShared(ops).next == Made(ops)
  {
    if ops != [] { MadeIsNext(ops[..|ops| - 1]); }
  }

  // Operation k makes instance i on the url, and nothing disconnects it later.
  predicate MadeAndKept(ops: seq<Op>, i: nat, url: string, k: nat) {
    k < |ops| && ops[k] == New(url) && Made(ops[..k]) == i && Disconnect(i) !in ops[k + 1..]
  }

  lemma MadeAndKeptEarlier(ops: seq<Op>, i: nat, url: string, k: nat)
    requires ops != [] && k < |ops| - 1
    ensures MadeAndKept(ops, i, url, k) <==> MadeAndKept(ops[..|ops| - 1], i, url, k) && ops[|ops| - 1] != Disconnect(i)
  {
    var n := |ops| - 1;
    assert ops[..n][..k] == ops[..k] && ops[k + 1..] == ops[..n][k + 1..] + [ops[n]];
  }

  /** In every good run an instance is live on a url exactly if it was made there and not disconnected since. */
  lemma {:induction false} LiveIff(ops: seq<Op>, i: nat, url: string)
    requires GoodRun(ops)
    ensures i in Live(RunShared(ops), url) <==> exists k :: MadeAndKept(ops, i, url, k)
  {
    if ops != [] {
      var n := |ops| - 1;
      GoodFront(ops);
      GoodRunInv(ops[..n]);
      LiveIff(ops[..n], i, url);
      WhoIsLive(RunShared(ops[..n]), ops[n], url);
      MadeIsNext(ops[..n]);
      forall k: nat | k < n
        ensures MadeAndKept(ops, i, url, k) <==> MadeAndKept(ops[..n], i, url, k) && ops[n] != Disconnect(i)
      {
        MadeAndKeptEarlier(ops, i, url, k);
      }
      if k: nat :| MadeAndKept(ops[..n], i, url, k) { assert k < n; }
      assert MadeAndKept(ops, i, url, n) <==> ops[n] == New(url) && Made(ops[..n]) == i;
    }
  }

  predicate IsLive(ops: seq<Op>, i: nat) { i in RunShared(ops).instances && !RunShared(ops).instances[i].disconnected }

  lemma GoodPart(ops: seq<Op>, n: nat)
    requires n <= |ops| && GoodRun(ops)
    ensures GoodRun(ops[..n])
  {
    var front := ops[..n];
    forall k | 0 <= k < n ensures Allowed(RunShared(front[..k]), front[k]) && OnLive(RunShared(front[..k]), front[k]) {
      assert front[..k] == ops[..k];
    }
  }

  lemma KeptOn(ops: seq<Op>, n: nat, i: nat, url: string, k: nat)
    requires n <= |ops| && MadeAndKept(ops[..n], i, url, k) && Disconnect(i) !in ops[n..]
    ensures MadeAndKept(ops, i, url, k)
  {
    assert ops[..n][..k] == ops[..k] && ops[k + 1..] == ops[..n][k + 1..] + ops[n..];
  }

  lemma LiveStays(ops: seq<Op>, n: nat, i: nat)
    requires n <= |ops| && IsLive(ops[..n], i) && GoodRun(ops) && Disconnect(i) !in ops[n..]
    ensures i in Live(RunShared(ops), RunShared(ops[..n]).instances[i].url)
  {
    var front, url := ops[..n], RunShared(ops[..n]).instances[i].url;
    GoodPart(ops, n);
    LiveIff(front, i, url);
    var k: nat :| MadeAndKept(front, i, url, k);
    KeptOn(ops, n, i, url, k);
    LiveIff(ops, i, url);
  }

  /** What the early return costs: as long as an instance has not itself been disconnected, whatever the
      others do, its reference counts and the context of its url is neither closed nor deleted. */
  lemma KeptReferenceKeepsContext(ops: seq<Op>, n: nat, i: nat)
    requires n <= |ops| && IsLive(ops[..n], i) && GoodRun(ops) && Disconnect(i) !in ops[n..]
    ensures var w, url := RunShared(ops), RunShared(ops[..n]).instances[i].url;
      url in w.contexts && w.contexts[url].refcount >= 1 && !w.contexts[url].closing
  {
    LiveStays(ops, n, i);
    GoodRunInv(ops);
    var w, url := RunShared(ops), RunShared(ops[..n]).instances[i].url;
    assert ExactContext(w, url) && i in Live(w, url);
  }

  // Operation k enters the url, and no "disconnected" event has come since while nobody was live there.
  ghost predicate EnteredAndKept(ops: seq<Op>, url: string, k: nat) {
    && k < |ops| && ops[k] == New(url)
    && forall j :: k < j < |ops| && ops[j] == DisconnectedEvent(url) ==> Live(RunShared(ops[..j]), url) != {}
  }

  ghost predicate InUse(ops: seq<Op>, url: string) { exists k :: EnteredAndKept(ops, url, k) }

  lemma EnteredAndKeptEarlier(ops: seq<Op>, url: string, k: nat)
    requires ops != [] && k < |ops| - 1
    ensures var n := |ops| - 1;
      EnteredAndKept(ops, url, k) <==>
        EnteredAndKept(ops[..n], url, k) && (ops[n] == DisconnectedEvent(url) ==> Live(RunShared(ops[..n]), url) != {})
  {
    var n := |ops| - 1;
    assert forall j :: 0 <= j <= n ==> ops[..n][..j] == ops[..j];
  }

  lemma InUseNext(ops: seq<Op>, url: string)
    requires ops != []
    ensures var n := |ops| - 1;
      InUse(ops, url) <==>
        ops[n] == New(url)
        || (InUse(ops[..n], url) && (ops[n] == DisconnectedEvent(url) ==> Live(RunShared(ops[..n]), url) != {}))
  {
    var n := |ops| - 1;
    if k: nat :| EnteredAndKept(ops, url, k) && k < n { EnteredAndKeptEarlier(ops, url, k); }
    if k: nat :| EnteredAndKept(ops[..n], url, k) { EnteredAndKeptEarlier(ops, url, k); }
    assert EnteredAndKept(ops, url, n) <==> ops[n] == New(url);
  }

  lemma WhichContexts(w: World, op: Op, url: string)
    requires Exact(w)
    ensures url in Step(w, op).contexts <==>
      op == New(url) || (url in w.contexts && !(op == DisconnectedEvent(url) && Live(w, url) == {}))
  {
    if url in w.contexts { assert ExactContext(w, url); }
  }

  /** In every good run a url has a context exactly if it has been entered and no "disconnected" event has
      come since while nobody was live there: a context in use is never deleted, one nobody uses goes with
      the next such event. */
  lemma {:induction false} ContextIff(ops: seq<Op>, url: string)
    requires GoodRun(ops)
    ensures url in RunShared(ops).contexts <==> exists k :: EnteredAndKept(ops, url, k)
  {
    if ops != [] {
      var n := |ops| - 1;
      GoodFront(ops);
      GoodRunInv(ops[..n]);
      ContextIff(ops[..n], url);
      WhichContexts(RunShared(ops[..n]), ops[n], url);
      InUseNext(ops, url);
      assert InUse(ops[..n], url) <==> url in RunShared(ops[..n]).contexts;
    }
  }

  /** The connection comes back: when the last live instance has left and the event has come, the context
      is gone, the url may be entered again, and then starts over with one reference and no channels. */
  lemma ReenteredFresh(w: World, i: nat, url: string)
    requires Exact(w) && Live(w, url) == {i}
    ensures var left := Step(w, Disconnect(i)); var gone := Step(left, DisconnectedEvent(url)); var back := Step(gone, New(url));
      && url in left.contexts && left.contexts[url].closing
      && url !in gone.contexts
      && Allowed(gone, New(url))
      && Exact(back) && Live(back, url) == {w.next}
      && url in back.contexts && back.contexts[url] == Context(1, map[], {}, false)
  {
    var left := Step(w, Disconnect(i));
    var gone := Step(left, DisconnectedEvent(url));
    assert i in Live(w, url) && w.instances[i].url == url && ExactContext(w, url);
    AllowedKeepsExact(w, Disconnect(i));
    WhoIsLive(w, Disconnect(i), url);
    assert ExactContext(left, url);
    WhichContexts(left, DisconnectedEvent(url), url);
    AllowedKeepsExact(left, DisconnectedEvent(url));
    WhoIsLive(left, DisconnectedEvent(url), url);
    AllowedKeepsExact(gone, New(url));
    WhoIsLive(gone, New(url), url);
  }

  // ---- Listeners: who hears a channel ----

  // WebSocketTransport.subscribe registers its listeners on the real subscription when the instance does
  // not hold the channel yet. Nothing takes them off again: they end with the real subscription.

  predicate HoldsAfter(ops: seq<Op>, i: nat, channel: string) {
    i in RunShared(ops).instances && channel in RunShared(ops).instances[i].channels
  }

  predicate OnWire(ops: seq<Op>, i: nat, channel: string) {
    var w := RunShared(ops);
    i in w.instances && w.instances[i].url in w.contexts && channel in w.contexts[w.instances[i].url].wire
  }

  // How often a publication of the channel reaches the transport of instance i.
  function Hears(ops: seq<Op>, i: nat, channel: string): nat {
    if ops == [] || !OnWire(ops, i, channel) then 0
    else
      var front, last := ops[..|ops| - 1], ops[|ops| - 1];
      Hears(front, i, channel) + if last == NewSubscription(i, channel) && !HoldsAfter(front, i, channel) then 1 else 0
  }

  // Operation k takes the channel from instance i while another keeps the real subscription up.
  predicate GivesUpAt(ops: seq<Op>, i: nat, channel: string, k: nat) {
    k < |ops| && HoldsAfter(ops[..k], i, channel) && !HoldsAfter(ops[..k + 1], i, channel)
    && forall j :: k < j <= |ops| ==> OnWire(ops[..j], i, channel)
  }

  // How often that has happened since the real subscription was made.
  function LeftBehind(ops: seq<Op>, i: nat, channel: string): nat {
    if ops == [] || !OnWire(ops, i, channel) then 0
    else
      var front := ops[..|ops| - 1];
      LeftBehind(front, i, channel) + if HoldsAfter(front, i, channel) && !HoldsAfter(ops, i, channel) then 1 else 0
  }

  lemma HeldIsOnWire(ops: seq<Op>, i: nat, channel: string)
    requires GoodRun(ops) && HoldsAfter(ops, i, channel)
    ensures OnWire(ops, i, channel)
  {
    GoodRunInv(ops);
    var w, url := RunShared(ops), RunShared(ops).instances[i].url;
    assert ExactContext(w, url) && CountRight(w, url, channel);
    assert i in Holders(w, url, channel);
  }

  // Only its own subscription gives an instance a channel.
  lemma GainsBySubscribing(w: World, op: Op, i: nat, channel: string)
    requires Exact(w) && OnLive(w, op)
    ensures var held := i in w.instances && channel in w.instances[i].channels;
      var holds := i in Step(w, op).instances && channel in Step(w, op).instances[i].channels;
      && (!held && holds ==> op == NewSubscription(i, channel))
      && (op == NewSubscription(i, channel) ==> holds)
  {
  }

  /** An instance hears a channel once if it holds it, and once more for every time it gave it up while
      another instance kept the real subscription. */
  lemma {:induction false} HearsExactly(ops: seq<Op>, i: nat, channel: string)
    requires GoodRun(ops)
    ensures Hears(ops, i, channel) == LeftBehind(ops, i, channel) + if HoldsAfter(ops, i, channel) then 1 else 0
  {
    if ops != [] {
      var n := |ops| - 1;
      GoodFront(ops);
      HearsExactly(ops[..n], i, channel);
      GoodRunInv(ops[..n]);
      GainsBySubscribing(RunShared(ops[..n]), ops[n], i, channel);
      if HoldsAfter(ops, i, channel) { HeldIsOnWire(ops, i, channel); }
    }
  }

  lemma GivesUpEarlier(ops: seq<Op>, i: nat, channel: string, k: nat)
    requires ops != [] && k < |ops| - 1 && OnWire(ops, i, channel)
    ensures GivesUpAt(ops, i, channel, k) <==> GivesUpAt(ops[..|ops| - 1], i, channel, k)
  {
    var front := ops[..|ops| - 1];
    assert forall j :: 0 <= j <= |front| ==> front[..j] == ops[..j];
    assert ops[..|ops|] == ops;
  }

  // Operation k gave it up, counted from the last one.
  lemma GivesUpLast(ops: seq<Op>, i: nat, channel: string, k: nat)
    requires ops != [] && OnWire(ops, i, channel)
    ensures var n := |ops| - 1;
      GivesUpAt(ops, i, channel, k)
      <==> GivesUpAt(ops[..n], i, channel, k) || (k == n && HoldsAfter(ops[..n], i, channel) && !HoldsAfter(ops, i, channel))
  {
    assert ops[..|ops|] == ops;
    if k < |ops| - 1 { GivesUpEarlier(ops, i, channel, k); }
  }

  lemma {:induction false} LeftBehindIff(ops: seq<Op>, i: nat, channel: string)
    ensures LeftBehind(ops, i, channel) == 0 <==> forall k: nat :: !GivesUpAt(ops, i, channel, k)
  {
    if ops != [] && OnWire(ops, i, channel) {
      var front, n := ops[..|ops| - 1], |ops| - 1;
      LeftBehindIff(front, i, channel);
      forall k: nat
        ensures GivesUpAt(ops, i, channel, k)
          <==> GivesUpAt(front, i, channel, k) || (k == n && HoldsAfter(front, i, channel) && !HoldsAfter(ops, i, channel))
      {
        GivesUpLast(ops, i, channel, k);
      }
      assert GivesUpAt(ops, i, channel, n) <==> HoldsAfter(front, i, channel) && !HoldsAfter(ops, i, channel);
    } else {
      assert ops[..|ops|] == ops;
      forall k: nat ensures !GivesUpAt(ops, i, channel, k) {
        if k < |ops| { assert !OnWire(ops[..|ops|], i, channel); }
      }
    }
  }

  /** An instance hears every channel as its own private client would, once if it holds it and otherwise
      not at all, if and only if it never gave the channel up while another kept it subscribed. */
  lemma HearsAsPrivateIff(ops: seq<Op>, i: nat, channel: string)
    requires GoodRun(ops) && i in RunPrivate(ops)
    ensures Hears(ops, i, channel) == (if channel in RunPrivate(ops)[i] then 1 else 0)
      <==> forall k: nat :: !GivesUpAt(ops, i, channel, k)
  {
    GoodRunInv(ops);
    HearsExactly(ops, i, channel);
    LeftBehindIff(ops, i, channel);
  }
}
