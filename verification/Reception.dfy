// The receiving half of WebSocketTransport: the nonce filter of _handleIncomingMessage, history
// replay, and the retained window of the relay (packages/core/src/transport/websocket/index.ts).

module Relay {
  // One publication in a channel of the relay. Anything that does not parse as a transport
  // message is Malformed.
  datatype Entry = Message(clientId: string, nonce: int, payload: string) | Malformed

  // A channel of the relay: an append-only log.
  type Log = seq<Entry>

  predicate SameMessage(a: Entry, b: Entry) {
    a.Message? && b.Message? && a.clientId == b.clientId && a.nonce == b.nonce
  }

  predicate NoDuplicates(log: Log) {
    forall i, j :: 0 <= i < j < |log| ==> !SameMessage(log[i], log[j])
  }

  // What honest senders leave in a channel: every sender's nonces are positive and never go down.
  predicate Ordered(log: Log) {
    && (forall i :: 0 <= i < |log| && log[i].Message? ==> log[i].nonce > 0)
    && (forall i, j :: 0 <= i < j < |log| && log[i].Message? && log[j].Message? && log[i].clientId == log[j].clientId
          ==> log[i].nonce <= log[j].nonce)
  }
}

module Reception {
  import opened Relay

  // The highest nonce handled, per sender: one latest-nonces record.
  type Marks = map<string, int>

  function Latest(marks: Marks, clientId: string): int {
    if clientId in marks then marks[clientId] else 0
  }

  predicate Foreign(own: string, e: Entry) { e.Message? && e.clientId != own }

  predicate Accepts(own: string, marks: Marks, e: Entry) {
    Foreign(own, e) && e.nonce > Latest(marks, e.clientId)
  }

  datatype Inbox = Inbox(marks: Marks, emitted: Log)

  const EMPTY := Inbox(map[], [])

  /** One message handled to completion. */
  function Handle(own: string, s: Inbox, e: Entry): Inbox {
    if Accepts(own, s.marks, e) then Inbox(s.marks[e.clientId := e.nonce], s.emitted + [e]) else s
  }

  function HandleAll(own: string, s: Inbox, arrivals: Log): Inbox {
    if arrivals == [] then s
    else Handle(own, HandleAll(own, s, arrivals[..|arrivals| - 1]), arrivals[|arrivals| - 1])
  }

  // ---- What should be delivered, with no mention of marks ----

  predicate IsNew(own: string, seen: Log, e: Entry) {
    Foreign(own, e) && forall k :: 0 <= k < |seen| ==> !SameMessage(seen[k], e)
  }

  /** The foreign messages of `arrivals` that appear neither in `seen` nor earlier in `arrivals`, in order. */
  function Delivered(own: string, seen: Log, arrivals: Log): Log {
    if arrivals == [] then []
    else
      var n := |arrivals| - 1;
      Delivered(own, seen, arrivals[..n]) + if IsNew(own, seen + arrivals[..n], arrivals[n]) then [arrivals[n]] else []
  }

  // ---- The filter delivers exactly that from an ordered log ----

  // marks[c] is the greatest nonce of c in log, 0 if there is none.
  ghost predicate Marked(own: string, marks: Marks, log: Log) {
    forall c: string :: c != own ==>
      && (forall k :: 0 <= k < |log| && log[k].Message? && log[k].clientId == c ==> log[k].nonce <= Latest(marks, c))
      && (Latest(marks, c) == 0
          || exists k :: 0 <= k < |log| && log[k].Message? && log[k].clientId == c && log[k].nonce == Latest(marks, c))
  }

  lemma AcceptsIffNew(own: string, marks: Marks, log: Log, e: Entry)
    requires Marked(own, marks, log) && Ordered(log + [e])
    ensures Accepts(own, marks, e) <==> IsNew(own, log, e)
  {
    var all := log + [e];
    assert all[|log|] == e;
    assert forall k :: 0 <= k < |log| ==> all[k] == log[k];
    if Foreign(own, e) && e.nonce <= Latest(marks, e.clientId) {
      var k :| 0 <= k < |log| && log[k].Message? && log[k].clientId == e.clientId && log[k].nonce == Latest(marks, e.clientId);
      assert all[k].nonce <= all[|log|].nonce;
      assert SameMessage(log[k], e);
    }
  }

  lemma MarkedStep(own: string, s: Inbox, log: Log, e: Entry)
    requires Marked(own, s.marks, log) && Ordered(log + [e])
    ensures Marked(own, Handle(own, s, e).marks, log + [e])
  {
    var all := log + [e];
    assert all[|log|] == e;
    assert forall k :: 0 <= k < |log| ==> all[k] == log[k];
    forall c: string | c != own
      ensures var l := Latest(Handle(own, s, e).marks, c);
        && (forall k :: 0 <= k < |all| && all[k].Message? && all[k].clientId == c ==> all[k].nonce <= l)
        && (l == 0 || exists k :: 0 <= k < |all| && all[k].Message? && all[k].clientId == c && all[k].nonce == l)
    {
      if Latest(s.marks, c) != 0 {
        var k :| 0 <= k < |log| && log[k].Message? && log[k].clientId == c && log[k].nonce == Latest(s.marks, c);
        assert all[k] == log[k];
      }
    }
  }

  lemma OrderedPart(log: Log, p: nat, lo: nat, hi: nat)
    requires Ordered(log) && p <= lo <= hi <= |log|
    ensures Ordered(log[..p] + log[lo..hi])
  {
    var part := log[..p] + log[lo..hi];
    assert forall i :: 0 <= i < |part| ==> part[i] == log[if i < p then i else lo + (i - p)];
  }

  /** In an ordered log, the nonce filter emits each foreign message once, in log order. */
  lemma {:induction false} FilterDelivers(own: string, log: Log)
    requires Ordered(log)
    ensures HandleAll(own, EMPTY, log).emitted == Delivered(own, [], log)
    ensures Marked(own, HandleAll(own, EMPTY, log).marks, log)
  {
    if log != [] {
      var n := |log| - 1;
      OrderedPart(log, n, |log|, |log|);
      assert log[..n] + log[|log|..] == log[..n];
      FilterDelivers(own, log[..n]);
      assert log == log[..n] + [log[n]];
      AcceptsIffNew(own, HandleAll(own, EMPTY, log[..n]).marks, log[..n], log[n]);
      MarkedStep(own, HandleAll(own, EMPTY, log[..n]), log[..n], log[n]);
      assert [] + log[..n] == log[..n];
    }
  }

  // ---- Replay ----

  function Max(a: int, b: int): int { if a >= b then a else b }

  lemma ReplayOne(own: string, log: Log, p: nat, k: nat)
    requires Ordered(log) && k < p <= |log|
    ensures Handle(own, HandleAll(own, EMPTY, log[..p]), log[k]) == HandleAll(own, EMPTY, log[..p])
  {
    OrderedPart(log, p, p, p);
    assert log[..p] + log[p..p] == log[..p];
    FilterDelivers(own, log[..p]);
    assert log[..p][k] == log[k];
  }

  lemma ExtendOne(own: string, log: Log, p: nat)
    requires p < |log|
    ensures Handle(own, HandleAll(own, EMPTY, log[..p]), log[p]) == HandleAll(own, EMPTY, log[..p + 1])
  {
    assert log[..p + 1][..p] == log[..p];
  }

  lemma ReplayNext(own: string, log: Log, p: nat, j: nat)
    requires Ordered(log) && p <= |log| && j < |log|
    ensures Handle(own, HandleAll(own, EMPTY, log[..Max(p, j)]), log[j]) == HandleAll(own, EMPTY, log[..Max(p, j + 1)])
  {
    if j < p { ReplayOne(own, log, p, j); } else { ExtendOne(own, log, j); }
  }

  lemma HandleAllSnoc(own: string, s: Inbox, a: Log, e: Entry)
    ensures HandleAll(own, s, a + [e]) == Handle(own, HandleAll(own, s, a), e)
  {
    assert (a + [e])[..|a|] == a;
  }

  lemma SliceSnoc(log: Log, i: nat, j: nat)
    requires i <= j < |log|
    ensures log[i..j + 1] == log[i..j] + [log[j]]
  {
  }

  /** A slice of the log that starts no later than the first unseen entry leaves the receiver where
      handling the log up to the furthest entry seen would have left it, however often entries repeat. */
  lemma {:induction false} ReplaySlice(own: string, log: Log, p: nat, i: nat, j: nat)
    requires Ordered(log) && p <= |log| && i <= j <= |log| && i <= p
    ensures HandleAll(own, HandleAll(own, EMPTY, log[..p]), log[i..j])
            == HandleAll(own, EMPTY, log[..Max(p, j)])
    decreases j
  {
    if i < j {
      ReplaySlice(own, log, p, i, j - 1);
      SliceSnoc(log, i, j - 1);
      HandleAllSnoc(own, HandleAll(own, EMPTY, log[..p]), log[i..j - 1], log[j - 1]);
      ReplayNext(own, log, p, j - 1);
    } else {
      assert log[i..j] == [];
    }
  }

  lemma {:induction false} HandleAllConcat(own: string, s: Inbox, a: Log, b: Log)
    ensures HandleAll(own, s, a + b) == HandleAll(own, HandleAll(own, s, a), b)
  {
    if b == [] {
      assert a + b == a;
    } else {
      var n := |b| - 1;
      HandleAllConcat(own, s, a, b[..n]);
      assert (a + b)[..|a + b| - 1] == a + b[..n];
    }
  }

  lemma {:induction false} DeliveredConcat(own: string, seen: Log, a: Log, b: Log)
    ensures Delivered(own, seen, a + b) == Delivered(own, seen, a) + Delivered(own, seen + a, b)
  {
    if b == [] {
      assert a + b == a;
    } else {
      var n := |b| - 1;
      DeliveredConcat(own, seen, a, b[..n]);
      assert (a + b)[..|a + b| - 1] == a + b[..n] && (a + b)[|a + b| - 1] == b[n];
      assert seen + (a + b[..n]) == seen + a + b[..n];
    }
  }

  // ---- History: the retained window and the fetch limit ----

  function Min(a: int, b: int): int { if a <= b then a else b }

  // The relay keeps the last `size` entries; a fetch returns the oldest `limit` of those.
  function WindowStart(length: nat, size: nat): nat { Max(0, length - size) }
  function WindowEnd(length: nat, size: nat, limit: nat): nat { Min(length, WindowStart(length, size) + limit) }

  function History(log: Log, size: nat, limit: nat): Log {
    log[WindowStart(|log|, size)..WindowEnd(|log|, size, limit)]
  }

  // HISTORY_FETCH_LIMIT of the client and history_size of the relay's two namespaces.
  const HISTORY_FETCH_LIMIT := 50
  const SESSION_HISTORY_SIZE := 20
  const HANDSHAKE_HISTORY_SIZE := 5

  /** A receiver that had processed p entries and then resubscribes with the whole log published. */
  function Resubscribe(own: string, log: Log, p: nat, size: nat, limit: nat): Inbox
    requires p <= |log|
  {
    HandleAll(own, HandleAll(own, EMPTY, log[..p]), History(log, size, limit))
  }

  lemma DeliveredUpTo(own: string, log: Log, p: nat, q: nat)
    requires Ordered(log) && p <= q <= |log|
    ensures HandleAll(own, EMPTY, log[..q]).emitted
            == Delivered(own, [], log[..p]) + Delivered(own, log[..p], log[p..q])
  {
    OrderedPart(log, q, q, q);
    assert log[..q] + log[q..q] == log[..q];
    FilterDelivers(own, log[..q]);
    assert log[..q] == log[..p] + log[p..q];
    DeliveredConcat(own, [], log[..p], log[p..q]);
    assert [] + log[..p] == log[..p];
  }

  lemma DeliveredAfterGap(own: string, log: Log, p: nat, lo: nat, hi: nat)
    requires Ordered(log) && p <= lo <= hi <= |log|
    ensures HandleAll(own, HandleAll(own, EMPTY, log[..p]), log[lo..hi]).emitted
            == Delivered(own, [], log[..p]) + Delivered(own, log[..p], log[lo..hi])
  {
    OrderedPart(log, p, lo, hi);
    HandleAllConcat(own, EMPTY, log[..p], log[lo..hi]);
    FilterDelivers(own, log[..p] + log[lo..hi]);
    DeliveredConcat(own, [], log[..p], log[lo..hi]);
    assert [] + log[..p] == log[..p];
  }

  /** Exactly which messages a resubscribing receiver gets: the new foreign ones among the log
      positions from max(p, L-H) up to min(L, L-H+F), and no other. */
  lemma HistoryLossBound(own: string, log: Log, p: nat, size: nat, limit: nat)
    requires Ordered(log) && p <= |log|
    ensures var start := if |log| > size then |log| - size else 0;
            var from := Max(p, start);
            var upto := Max(from, if start + limit < |log| then start + limit else |log|);
      Resubscribe(own, log, p, size, limit).emitted
      == Delivered(own, [], log[..p]) + Delivered(own, log[..p], log[from..upto])
  {
    var lo, hi := WindowStart(|log|, size), WindowEnd(|log|, size, limit);
    if lo <= p {
      ReplaySlice(own, log, p, lo, hi);
      DeliveredUpTo(own, log, p, Max(p, hi));
    } else {
      DeliveredAfterGap(own, log, p, lo, hi);
    }
  }

  lemma DeliveredWhole(own: string, log: Log, p: nat)
    requires p <= |log|
    ensures Delivered(own, [], log) == Delivered(own, [], log[..p]) + Delivered(own, log[..p], log[p..|log|])
  {
    assert log == log[..p] + log[p..|log|];
    DeliveredConcat(own, [], log[..p], log[p..|log|]);
    assert [] + log[..p] == log[..p];
  }

  // The receiver has everything there is to have.
  predicate Complete(own: string, log: Log, p: nat, size: nat, limit: nat)
    requires p <= |log|
  {
    Resubscribe(own, log, p, size, limit).emitted == Delivered(own, [], log)
  }

  // A log of n different messages from one other client.
  function AllDifferent(clientId: string, n: nat): (log: Log)
    ensures |log| == n
  {
    if n == 0 then [] else AllDifferent(clientId, n - 1) + [Message(clientId, n, "")]
  }

  lemma {:induction false} AllDifferentAt(clientId: string, n: nat, k: nat)
    requires k < n
    ensures AllDifferent(clientId, n)[k] == Message(clientId, k + 1, "")
  {
    if k < n - 1 { AllDifferentAt(clientId, n - 1, k); }
  }

  lemma AllDifferentOrdered(clientId: string, n: nat)
    ensures Ordered(AllDifferent(clientId, n))
  {
    forall k | 0 <= k < n ensures AllDifferent(clientId, n)[k] == Message(clientId, k + 1, "") { AllDifferentAt(clientId, n, k); }
  }

  lemma AllDifferentNext(own: string, clientId: string, n: nat)
    requires clientId != own
    ensures IsNew(own, AllDifferent(clientId, n), Message(clientId, n + 1, ""))
  {
    forall k | 0 <= k < n ensures AllDifferent(clientId, n)[k] == Message(clientId, k + 1, "") { AllDifferentAt(clientId, n, k); }
  }

  lemma {:induction false} DeliveredLength(own: string, seen: Log, w: Log)
    ensures |Delivered(own, seen, w)| <= |w|
  {
    if w != [] { DeliveredLength(own, seen, w[..|w| - 1]); }
  }

  lemma DeliveredSnoc(own: string, front: Log, e: Entry)
    ensures Delivered(own, [], front + [e]) == Delivered(own, [], front) + if IsNew(own, front, e) then [e] else []
  {
    assert (front + [e])[..|front|] == front && [] + front == front;
  }

  lemma {:induction false} AllDifferentDelivered(own: string, clientId: string, n: nat)
    requires clientId != own
    ensures |Delivered(own, [], AllDifferent(clientId, n))| == n
  {
    if n > 0 {
      AllDifferentDelivered(own, clientId, n - 1);
      AllDifferentNext(own, clientId, n - 1);
      DeliveredSnoc(own, AllDifferent(clientId, n - 1), Message(clientId, n, ""));
    }
  }

  lemma WindowCovers(own: string, log: Log, p: nat, size: nat, limit: nat)
    requires Ordered(log) && p <= |log|
    requires p == |log| || (WindowStart(|log|, size) <= p && WindowEnd(|log|, size, limit) == |log|)
    ensures Complete(own, log, p, size, limit)
  {
    HistoryLossBound(own, log, p, size, limit);
    var from := Max(p, WindowStart(|log|, size));
    var upto := Max(from, WindowEnd(|log|, size, limit));
    assert from == p && upto == |log|;
    DeliveredWhole(own, log, p);
  }

  lemma MissesSome(own: string, log: Log, p: nat, size: nat, limit: nat)
    requires Ordered(log) && p < |log|
    requires WindowStart(|log|, size) > p || WindowEnd(|log|, size, limit) != |log|
    ensures |Resubscribe(own, log, p, size, limit).emitted| < |log|
  {
    HistoryLossBound(own, log, p, size, limit);
    var from := Max(p, WindowStart(|log|, size));
    var upto := Max(from, WindowEnd(|log|, size, limit));
    DeliveredLength(own, [], log[..p]);
    DeliveredLength(own, log[..p], log[from..upto]);
  }

  lemma WindowMisses(own: string, length: nat, p: nat, size: nat, limit: nat)
    requires p < length
    requires WindowStart(length, size) > p || WindowEnd(length, size, limit) != length
    ensures exists log :: |log| == length && Ordered(log) && !Complete(own, log, p, size, limit)
  {
    var log := AllDifferent(own + "+", length);
    assert |own + "+"| != |own|;
    AllDifferentOrdered(own + "+", length);
    AllDifferentDelivered(own, own + "+", length);
    MissesSome(own, log, p, size, limit);
    assert !Complete(own, log, p, size, limit);
  }

  /** Nothing is lost, whatever the log holds, exactly when the receiver was up to date or its
      first unseen entry is still retained and the fetch limit covers the retained window. */
  lemma NothingLostIff(own: string, length: nat, p: nat, size: nat, limit: nat)
    requires p <= length
    ensures (forall log :: |log| == length && Ordered(log) ==> Complete(own, log, p, size, limit))
            <==> p == length || (length - p <= size && Min(length, size) <= limit)
  {
    if p == length || (WindowStart(length, size) <= p && WindowEnd(length, size, limit) == length) {
      forall log | |log| == length && Ordered(log) ensures Complete(own, log, p, size, limit) {
        WindowCovers(own, log, p, size, limit);
      }
    } else {
      WindowMisses(own, length, p, size, limit);
    }
  }

  /** With the shipped constants the fetch limit never binds: only a gap of more than 20
      (session channel) or 5 (handshake channel) entries can lose anything. */
  lemma ShippedLimits(own: string, length: nat, p: nat)
    requires p <= length
    ensures (forall log :: |log| == length && Ordered(log) ==> Complete(own, log, p, SESSION_HISTORY_SIZE, HISTORY_FETCH_LIMIT))
            <==> length - p <= SESSION_HISTORY_SIZE
    ensures (forall log :: |log| == length && Ordered(log) ==> Complete(own, log, p, HANDSHAKE_HISTORY_SIZE, HISTORY_FETCH_LIMIT))
            <==> length - p <= HANDSHAKE_HISTORY_SIZE
  {
    NothingLostIff(own, length, p, SESSION_HISTORY_SIZE, HISTORY_FETCH_LIMIT);
    NothingLostIff(own, length, p, HANDSHAKE_HISTORY_SIZE, HISTORY_FETCH_LIMIT);
  }
}
