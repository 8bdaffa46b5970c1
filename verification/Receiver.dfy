// _handleIncomingMessage at the granularity of its awaits: it reads the latest nonces, compares,
// persists the new mark, and only then emits. Nothing locks it, so several calls may be suspended
// at once; the process may also stop at any await and restart from the key-value store.

module Receiver {
  import opened Relay
  import opened Reception

  // A suspended call, and the log position it was given.
  datatype Handler =
    | ReadingMarks(at: nat, e: Entry)
    | WritingMarks(at: nat, e: Entry, updated: Marks)

  // `seen` counts the leading log entries that have been handled.
  datatype Receiver = Receiver(marks: Marks, emitted: Log, handling: map<nat, Handler>, nextId: nat, seen: nat)

  const FRESH := Receiver(map[], [], map[], 0, 0)

  datatype Event =
    | Arrival(at: nat, e: Entry)           // a publication, live or from history
    | Resumed(id: nat)                     // the awaited store call succeeds
    | Failed(id: nat, persisted: bool)     // it rejects; a write may still have taken effect
    | Restarted                            // crash and restart from the same store

  function Done(r: Receiver, at: nat): Receiver {
    if at == r.seen then r.(seen := at + 1) else r
  }

  function Drop(r: Receiver, id: nat): Receiver { r.(handling := r.handling - {id}) }

  // The part of the handler before its first await.
  function Arrive(own: string, r: Receiver, at: nat, e: Entry): Receiver {
    if Foreign(own, e)
    then r.(handling := r.handling[r.nextId := ReadingMarks(at, e)], nextId := r.nextId + 1)
    else Done(r, at)
  }

  function Resume(own: string, r: Receiver, id: nat): Receiver
    requires id in r.handling
  {
    match r.handling[id]
    case ReadingMarks(at, e) =>
      if Accepts(own, r.marks, e)
      then r.(handling := r.handling[id := WritingMarks(at, e, r.marks[e.clientId := e.nonce])])
      else Done(Drop(r, id), at)
    case WritingMarks(at, e, updated) =>
      Done(Drop(r, id), at).(marks := updated, emitted := r.emitted + [e])
  }

  function Fail(r: Receiver, id: nat, persisted: bool): Receiver
    requires id in r.handling
  {
    var h := r.handling[id];
    if h.WritingMarks? && persisted then Drop(r, id).(marks := h.updated) else Drop(r, id)
  }

  function Step(own: string, r: Receiver, ev: Event): Receiver {
    match ev
    case Arrival(at, e) => Arrive(own, r, at, e)
    case Resumed(id) => if id in r.handling then Resume(own, r, id) else r
    case Failed(id, persisted) => if id in r.handling then Fail(r, id, persisted) else r
    case Restarted => r.(handling := map[])
  }

  function Run(own: string, r: Receiver, evs: seq<Event>): Receiver {
    if evs == [] then r else Step(own, Run(own, r, evs[..|evs| - 1]), evs[|evs| - 1])
  }

  lemma {:induction false} RunConcat(own: string, r: Receiver, a: seq<Event>, b: seq<Event>)
    ensures Run(own, r, a + b) == Run(own, Run(own, r, a), b)
  {
    if b == [] {
      assert a + b == a;
    } else {
      var n := |b| - 1;
      RunConcat(own, r, a, b[..n]);
      assert (a + b)[..|a + b| - 1] == a + b[..n];
    }
  }

  lemma RunOne(own: string, r: Receiver, ev: Event)
    ensures Run(own, r, [ev]) == Step(own, r, ev)
  {
    assert [ev][..0] == [];
  }

  lemma RunMore(own: string, r: Receiver, evs: seq<Event>, ev: Event)
    ensures Run(own, r, evs + [ev]) == Step(own, Run(own, r, evs), ev)
  {
    assert (evs + [ev])[..|evs|] == evs;
  }

  /** From idle, a message handled without interruption is exactly the filter of Reception. */
  lemma UninterruptedIsHandle(own: string, r: Receiver, at: nat, e: Entry)
    requires r.handling == map[]
    ensures var r' := Run(own, r, [Arrival(at, e), Resumed(r.nextId), Resumed(r.nextId)]);
      r'.handling == map[] && Inbox(r'.marks, r'.emitted) == Handle(own, Inbox(r.marks, r.emitted), e)
  {
    var arrival, resumed := Arrival(at, e), Resumed(r.nextId);
    RunOne(own, r, arrival);
    RunMore(own, r, [arrival], resumed);
    RunMore(own, r, [arrival] + [resumed], resumed);
    assert [arrival, resumed, resumed] == [arrival] + [resumed] + [resumed];
  }

  // ---- At most once, across crashes and whatever order or repetition the relay shows ----

  // The handler will emit, or has yet to find out that it will not.
  predicate Live(own: string, marks: Marks, h: Handler) {
    h.WritingMarks? || Accepts(own, marks, h.e)
  }

  // A call that may be started now: its message is not acceptable any more, or no live call is suspended.
  predicate Safe(own: string, r: Receiver, e: Entry) {
    Accepts(own, r.marks, e) ==> forall id :: id in r.handling ==> !Live(own, r.marks, r.handling[id])
  }

  predicate Allowed(own: string, r: Receiver, ev: Event) {
    ev.Arrival? ==> Safe(own, r, ev.e)
  }

  ghost predicate Inv(own: string, r: Receiver) {
    && (forall id :: id in r.handling ==> id < r.nextId && Foreign(own, r.handling[id].e))
    && (forall id, id' :: id in r.handling && id' in r.handling && id != id' ==>
          !Live(own, r.marks, r.handling[id]) || !Live(own, r.marks, r.handling[id']))
    && (forall id :: id in r.handling && r.handling[id].WritingMarks? ==>
          var h := r.handling[id];
          Accepts(own, r.marks, h.e) && h.updated == r.marks[h.e.clientId := h.e.nonce])
    && (forall i :: 0 <= i < |r.emitted| ==>
          Foreign(own, r.emitted[i]) && r.emitted[i].nonce <= Latest(r.marks, r.emitted[i].clientId))
    && Rising(r.emitted)
  }

  // Each sender's messages come out with strictly increasing nonces.
  predicate Rising(log: Log) {
    forall i, j :: 0 <= i < j < |log| && log[i].Message? && log[j].Message? && log[i].clientId == log[j].clientId
      ==> log[i].nonce < log[j].nonce
  }

  lemma ResumeKeepsInv(own: string, r: Receiver, id: nat)
    requires Inv(own, r) && id in r.handling
    ensures Inv(own, Resume(own, r, id))
  {
    var h, r' := r.handling[id], Resume(own, r, id);
    if h.WritingMarks? {
      assert Live(own, r.marks, h);
      forall id' | id' in r'.handling ensures !Live(own, r'.marks, r'.handling[id']) {
        assert !Live(own, r.marks, r.handling[id']);
      }
    }
  }

  lemma FailKeepsInv(own: string, r: Receiver, id: nat, persisted: bool)
    requires Inv(own, r) && id in r.handling
    ensures Inv(own, Fail(r, id, persisted))
  {
    var h, r' := r.handling[id], Fail(r, id, persisted);
    if h.WritingMarks? {
      assert Live(own, r.marks, h);
      forall id' | id' in r'.handling ensures !Live(own, r'.marks, r'.handling[id']) {
        assert !Live(own, r.marks, r.handling[id']);
      }
    }
  }

  lemma StepKeepsInv(own: string, r: Receiver, ev: Event)
    requires Inv(own, r) && Allowed(own, r, ev)
    ensures Inv(own, Step(own, r, ev))
  {
    match ev
    case Arrival(at, e) =>
    case Resumed(id) => if id in r.handling { ResumeKeepsInv(own, r, id); }
    case Failed(id, persisted) => if id in r.handling { FailKeepsInv(own, r, id, persisted); }
    case Restarted =>
  }

  // Every event of a continuation is allowed where it happens.
  ghost predicate AllowedFrom(own: string, r: Receiver, evs: seq<Event>) {
    forall k :: 0 <= k < |evs| ==> Allowed(own, Run(own, r, evs[..k]), evs[k])
  }

  lemma {:induction false} AllowedKeepsInv(own: string, r: Receiver, evs: seq<Event>)
    requires Inv(own, r) && AllowedFrom(own, r, evs)
    ensures Inv(own, Run(own, r, evs))
  {
    if evs != [] {
      var n := |evs| - 1;
      forall k | 0 <= k < n ensures Allowed(own, Run(own, r, evs[..n][..k]), evs[..n][k]) {
        assert evs[..n][..k] == evs[..k];
      }
      AllowedKeepsInv(own, r, evs[..n]);
      StepKeepsInv(own, Run(own, r, evs[..n]), evs[n]);
    }
  }

  /** No (sender, nonce) is emitted twice and every sender's messages are emitted in nonce order:
      for every relay content, every order and repetition of arrivals, every store failure and
      every crash, as long as live calls do not overlap. */
  lemma AtMostOnce(own: string, evs: seq<Event>)
    requires AllowedFrom(own, FRESH, evs)
    ensures NoDuplicates(Run(own, FRESH, evs).emitted)
    ensures Rising(Run(own, FRESH, evs).emitted)
  {
    AllowedKeepsInv(own, FRESH, evs);
  }

  // ---- The condition is exact: starting any other call can duplicate a message ----

  lemma ResumesAllowed(own: string, r: Receiver, evs: seq<Event>)
    requires forall k :: 0 <= k < |evs| ==> evs[k].Resumed?
    ensures AllowedFrom(own, r, evs)
  {
  }

  lemma AllowedConcat(own: string, r: Receiver, a: seq<Event>, b: seq<Event>)
    requires AllowedFrom(own, r, a) && AllowedFrom(own, Run(own, r, a), b)
    ensures AllowedFrom(own, r, a + b)
  {
    forall k | 0 <= k < |a + b| ensures Allowed(own, Run(own, r, (a + b)[..k]), (a + b)[k]) {
      if k < |a| {
        assert (a + b)[..k] == a[..k];
      } else {
        assert (a + b)[..k] == a + b[..k - |a|];
        RunConcat(own, r, a, b[..k - |a|]);
      }
    }
  }

  // The suspended call `id` gets its snapshot, if it has not got it already.
  lemma Snapshot(own: string, r: Receiver, id: nat) returns (evs: seq<Event>)
    requires id in r.handling && Live(own, r.marks, r.handling[id])
    requires r.handling[id].e.Message?
    requires var h := r.handling[id]; h.WritingMarks? ==> h.updated == r.marks[h.e.clientId := h.e.nonce]
    ensures AllowedFrom(own, r, evs)
    ensures var h := r.handling[id];
      Run(own, r, evs) == r.(handling := r.handling[id := WritingMarks(h.at, h.e, r.marks[h.e.clientId := h.e.nonce])])
  {
    var h := r.handling[id];
    if h.ReadingMarks? {
      evs := [Resumed(id)];
      RunOne(own, r, evs[0]);
      ResumesAllowed(own, r, evs);
    } else {
      evs := [];
      assert r.handling[id := h] == r.handling;
    }
  }

  // Two calls that hold snapshots finish, the one for `first` before the other.
  lemma FinishBoth(own: string, r: Receiver, first: nat, second: nat) returns (evs: seq<Event>)
    requires first in r.handling && second in r.handling && first != second
    requires r.handling[first].WritingMarks? && r.handling[second].WritingMarks?
    ensures AllowedFrom(own, r, evs)
    ensures var r' := Run(own, r, evs);
      && r'.emitted == r.emitted + [r.handling[first].e, r.handling[second].e]
      && r'.marks == r.handling[second].updated
      && r'.nextId == r.nextId && r'.handling == r.handling - {first, second}
  {
    evs := [Resumed(first), Resumed(second)];
    RunOne(own, r, evs[0]);
    RunMore(own, r, [evs[0]], evs[1]);
    assert [evs[0]] + [evs[1]] == evs;
    ResumesAllowed(own, r, evs);
  }

  // Handling a message whose mark was lost emits it once more.
  lemma Redeliver(own: string, r: Receiver, at: nat, e: Entry) returns (evs: seq<Event>)
    requires Accepts(own, r.marks, e) && Safe(own, r, e) && r.nextId !in r.handling
    ensures AllowedFrom(own, r, evs) && Run(own, r, evs).emitted == r.emitted + [e]
  {
    var id := r.nextId;
    var resumes := [Resumed(id), Resumed(id)];
    evs := [Arrival(at, e)] + resumes;
    var a := Step(own, r, evs[0]);
    RunOne(own, r, evs[0]);
    RunConcat(own, r, [evs[0]], resumes);
    RunOne(own, a, resumes[0]);
    RunMore(own, a, [resumes[0]], resumes[1]);
    assert [resumes[0]] + [resumes[1]] == resumes;
    ResumesAllowed(own, a, resumes);
    assert AllowedFrom(own, r, [evs[0]]) by { assert [evs[0]][..0] == []; }
    AllowedConcat(own, r, [evs[0]], resumes);
  }

  lemma DuplicateAtEnd(log: Log, e: Entry)
    requires exists i :: 0 <= i < |log| && SameMessage(log[i], e)
    ensures !NoDuplicates(log + [e])
  {
    var i :| 0 <= i < |log| && SameMessage(log[i], e);
    assert SameMessage((log + [e])[i], (log + [e])[|log|]);
  }

  // Calls that are not live stay so when marks rise.
  lemma OthersNotLive(own: string, r: Receiver, id: nat, marks: Marks)
    requires Inv(own, r) && id in r.handling && Live(own, r.marks, r.handling[id])
    requires forall c :: Latest(marks, c) >= Latest(r.marks, c)
    ensures forall other :: other in r.handling - {id} ==> !Live(own, marks, r.handling[other])
  {
    forall other | other in r.handling - {id} ensures !Live(own, marks, r.handling[other]) {
      assert !Live(own, r.marks, r.handling[other]);
    }
  }

  // Both calls read the marks before either writes.
  lemma SnapshotBoth(own: string, r: Receiver, id: nat, id2: nat) returns (evs: seq<Event>)
    requires id in r.handling && id2 in r.handling && id != id2
    requires Live(own, r.marks, r.handling[id]) && Live(own, r.marks, r.handling[id2])
    requires r.handling[id].e.Message? && r.handling[id2].ReadingMarks? && r.handling[id2].e.Message?
    requires var h := r.handling[id]; h.WritingMarks? ==> h.updated == r.marks[h.e.clientId := h.e.nonce]
    ensures AllowedFrom(own, r, evs)
    ensures var h, h2 := r.handling[id], r.handling[id2];
      Run(own, r, evs) == r.(handling := r.handling
        [id := WritingMarks(h.at, h.e, r.marks[h.e.clientId := h.e.nonce])]
        [id2 := WritingMarks(h2.at, h2.e, r.marks[h2.e.clientId := h2.e.nonce])])
  {
    var snap1 := Snapshot(own, r, id);
    var r1 := Run(own, r, snap1);
    var snap2 := Snapshot(own, r1, id2);
    evs := snap1 + snap2;
    RunConcat(own, r, snap1, snap2);
    AllowedConcat(own, r, snap1, snap2);
  }

  predicate Snapshotted(own: string, r: Receiver, id: nat) {
    && id in r.handling && Accepts(own, r.marks, r.handling[id].e)
    && var h := r.handling[id]; h.WritingMarks? && h.updated == r.marks[h.e.clientId := h.e.nonce]
  }

  // Of two calls with snapshots the one that finishes first loses its mark, if the other's is not greater.
  lemma FirstMarkLost(own: string, r: Receiver, first: nat, second: nat) returns (evs: seq<Event>)
    requires Snapshotted(own, r, first) && Snapshotted(own, r, second) && first != second
    requires var e, e2 := r.handling[first].e, r.handling[second].e; e.clientId == e2.clientId ==> e.nonce >= e2.nonce
    ensures AllowedFrom(own, r, evs)
    ensures var r', e, e2 := Run(own, r, evs), r.handling[first].e, r.handling[second].e;
      && r'.emitted == r.emitted + [e, e2] && r'.nextId == r.nextId && r'.handling == r.handling - {first, second}
      && (forall c :: Latest(r'.marks, c) >= Latest(r.marks, c))
      && (SameMessage(e, e2) || Accepts(own, r'.marks, e))
  {
    evs := FinishBoth(own, r, first, second);
  }

  // An unsafe call and a suspended one both read the marks before either writes.
  lemma UnsafeSnapshots(own: string, r: Receiver, at: nat, e: Entry) returns (evs: seq<Event>, id: nat)
    requires Inv(own, r) && Accepts(own, r.marks, e) && !Safe(own, r, e)
    ensures AllowedFrom(own, Step(own, r, Arrival(at, e)), evs)
    ensures id in r.handling && Live(own, r.marks, r.handling[id])
    ensures var r', id2 := Run(own, Step(own, r, Arrival(at, e)), evs), r.nextId;
      && r'.emitted == r.emitted && r'.marks == r.marks && r'.nextId == id2 + 1 && id != id2
      && Snapshotted(own, r', id) && Snapshotted(own, r', id2)
      && r'.handling - {id, id2} == r.handling - {id}
  {
    id :| id in r.handling && Live(own, r.marks, r.handling[id]);
    var r1 := Step(own, r, Arrival(at, e));
    evs := SnapshotBoth(own, r1, id, r.nextId);
  }

  // Two calls with snapshots run to their end: if they share a sender, the greater nonce first.
  lemma AMarkIsLost(own: string, r: Receiver, id: nat, id2: nat) returns (evs: seq<Event>, lostAt: nat, lost: Entry)
    requires Snapshotted(own, r, id) && Snapshotted(own, r, id2) && id != id2
    ensures AllowedFrom(own, r, evs) && lost.Message?
    ensures var r' := Run(own, r, evs);
      && |r'.emitted| == |r.emitted| + 2 && r'.emitted[|r.emitted|] == lost
      && r'.nextId == r.nextId && r'.handling == r.handling - {id, id2}
      && (forall c :: Latest(r'.marks, c) >= Latest(r.marks, c))
      && (SameMessage(lost, r'.emitted[|r.emitted| + 1]) || Accepts(own, r'.marks, lost))
  {
    var e, e2 := r.handling[id].e, r.handling[id2].e;
    if e.clientId == e2.clientId && e2.nonce > e.nonce {
      evs := FirstMarkLost(own, r, id2, id);
      lost, lostAt := e2, r.handling[id2].at;
      assert r.handling - {id2, id} == r.handling - {id, id2};
    } else {
      evs := FirstMarkLost(own, r, id, id2);
      lost, lostAt := e, r.handling[id].at;
    }
  }

  lemma OverlapLosesAMark(own: string, r: Receiver, at: nat, e: Entry)
    returns (evs: seq<Event>, lostAt: nat, lost: Entry)
    requires Inv(own, r) && Accepts(own, r.marks, e) && !Safe(own, r, e)
    ensures AllowedFrom(own, Step(own, r, Arrival(at, e)), evs)
    ensures var r' := Run(own, Step(own, r, Arrival(at, e)), evs);
      && |r'.emitted| == |r.emitted| + 2 && r'.emitted[|r.emitted|] == lost && lost.Message?
      && (SameMessage(lost, r'.emitted[|r.emitted| + 1]) || (Accepts(own, r'.marks, lost) && Safe(own, r', lost)))
      && r'.nextId !in r'.handling
  {
    var r1 := Step(own, r, Arrival(at, e));
    var snaps, id := UnsafeSnapshots(own, r, at, e);
    var r2 := Run(own, r1, snaps);
    var finish;
    finish, lostAt, lost := AMarkIsLost(own, r2, id, r.nextId);
    evs := snaps + finish;
    RunConcat(own, r1, snaps, finish);
    AllowedConcat(own, r1, snaps, finish);
    OthersNotLive(own, r, id, Run(own, r2, finish).marks);
  }

  lemma OverlapDuplicates(own: string, r: Receiver, at: nat, e: Entry) returns (evs: seq<Event>)
    requires Inv(own, r) && !Safe(own, r, e)
    ensures AllowedFrom(own, Step(own, r, Arrival(at, e)), evs)
    ensures !NoDuplicates(Run(own, Step(own, r, Arrival(at, e)), evs).emitted)
  {
    var r1 := Step(own, r, Arrival(at, e));
    var lostAt, lost;
    evs, lostAt, lost := OverlapLosesAMark(own, r, at, e);
    var r4 := Run(own, r1, evs);
    if !SameMessage(lost, r4.emitted[|r.emitted| + 1]) {
      var again := Redeliver(own, r4, lostAt, lost);
      RunConcat(own, r1, evs, again);
      AllowedConcat(own, r1, evs, again);
      evs := evs + again;
      DuplicateAtEnd(r4.emitted, lost);
    }
  }

  /** A crash before the write of the mark loses nothing: whatever was suspended, after the restart any
      message may be started again, and the interrupted one is emitted when it is handled once more. */
  lemma RestartRedelivers(own: string, r: Receiver, id: nat, at: nat, e: Entry)
    requires Inv(own, r) && id in r.handling && Live(own, r.marks, r.handling[id])
    ensures var up := Step(own, r, Restarted);
      && Safe(own, up, e) && up.emitted == r.emitted && up.marks == r.marks
      && Run(own, up, [Arrival(at, r.handling[id].e), Resumed(up.nextId), Resumed(up.nextId)]).emitted
         == r.emitted + [r.handling[id].e]
  {
    UninterruptedIsHandle(own, Step(own, r, Restarted), at, r.handling[id].e);
  }

  /** The condition is exact. In any reachable state, starting the handling of a message leaves
      every continuation free of duplicates (later calls being started safely) if and only if the
      start itself is safe: the message is not acceptable, or no live call is suspended. */
  lemma SafeToStartIff(own: string, r: Receiver, at: nat, e: Entry)
    requires Inv(own, r)
    ensures Safe(own, r, e) <==>
      forall evs :: AllowedFrom(own, Step(own, r, Arrival(at, e)), evs)
        ==> NoDuplicates(Run(own, Step(own, r, Arrival(at, e)), evs).emitted)
  {
    var r1 := Step(own, r, Arrival(at, e));
    if Safe(own, r, e) {
      StepKeepsInv(own, r, Arrival(at, e));
      forall evs | AllowedFrom(own, r1, evs) ensures NoDuplicates(Run(own, r1, evs).emitted) {
        AllowedKeepsInv(own, r1, evs);
      }
    } else {
      var evs := OverlapDuplicates(own, r, at, e);
    }
  }

  // ---- Exactly once, in order ----

  // The relay side of a prompt run: entries come from the log, none starts past the first unseen
  // one, and each is handled to completion before the next. Calls may fail and the process may
  // restart, but not between the write of a mark and the emit.
  predicate InOrder(log: Log, r: Receiver, ev: Event) {
    match ev
    case Arrival(at, e) => at <= r.seen && at < |log| && e == log[at] && r.handling == map[]
    case Resumed(id) => true
    case Failed(_, persisted) => !persisted
    case Restarted => true
  }

  ghost predicate Exact(own: string, log: Log, r: Receiver) {
    && r.seen <= |log|
    && Inbox(r.marks, r.emitted) == HandleAll(own, EMPTY, log[..r.seen])
    && (r.handling == map[] ||
        exists id :: id in r.handling && r.handling == map[id := r.handling[id]] &&
          var h := r.handling[id];
          && h.at <= r.seen && h.at < |log| && h.e == log[h.at] && Foreign(own, h.e)
          && (h.WritingMarks? ==> Accepts(own, r.marks, h.e) && h.updated == r.marks[h.e.clientId := h.e.nonce]))
  }

  lemma ExactFinish(own: string, log: Log, r: Receiver, at: nat)
    requires Ordered(log) && r.seen <= |log| && at <= r.seen && at < |log|
    requires Inbox(r.marks, r.emitted) == HandleAll(own, EMPTY, log[..r.seen])
    ensures var r' := Done(r, at);
      Handle(own, Inbox(r.marks, r.emitted), log[at]) == HandleAll(own, EMPTY, log[..r'.seen])
  {
    if at == r.seen {
      ExtendOne(own, log, at);
    } else {
      ReplayOne(own, log, r.seen, at);
    }
  }

  lemma StepKeepsExact(own: string, log: Log, r: Receiver, ev: Event)
    requires Ordered(log) && Exact(own, log, r) && InOrder(log, r, ev)
    ensures Exact(own, log, Step(own, r, ev))
  {
    var r' := Step(own, r, ev);
    match ev
    case Arrival(at, e) =>
      if Foreign(own, e) {
        assert r'.handling == map[r.nextId := ReadingMarks(at, e)];
      } else {
        ExactFinish(own, log, r, at);
      }
    case Resumed(id) =>
      if id in r.handling {
        assert r.handling == map[id := r.handling[id]];
        var h := r.handling[id];
        ExactFinish(own, log, r, h.at);
        if h.ReadingMarks? && Accepts(own, r.marks, h.e) {
          assert r'.handling == map[id := r'.handling[id]];
        } else {
          assert r'.handling == map[];
        }
      }
    case Failed(id, persisted) =>
      if id in r.handling {
        assert r.handling == map[id := r.handling[id]];
        assert r'.handling == map[];
      }
    case Restarted =>
  }

  /** In-order runs over an ordered log, which may grow between events: at all times exactly the
      log's foreign messages up to the furthest entry seen have been emitted, once each, in log order. */
  lemma ExactIsDelivered(own: string, log: Log, r: Receiver)
    requires Ordered(log) && Exact(own, log, r)
    ensures r.emitted == Delivered(own, [], log[..r.seen])
  {
    OrderedPart(log, r.seen, r.seen, r.seen);
    assert log[..r.seen] + log[r.seen..r.seen] == log[..r.seen];
    FilterDelivers(own, log[..r.seen]);
  }

  lemma ExactWhenLogGrows(own: string, log: Log, more: Log, r: Receiver)
    requires Exact(own, log, r)
    ensures Exact(own, log + more, r)
  {
    assert (log + more)[..r.seen] == log[..r.seen];
  }

  // ---- What a failure costs ----

  // Every event of a continuation is in order, for a log that includes all that is published meanwhile.
  ghost predicate InOrderFrom(own: string, log: Log, r: Receiver, evs: seq<Event>) {
    forall k :: 0 <= k < |evs| ==> InOrder(log, Run(own, r, evs[..k]), evs[k])
  }

  lemma {:induction false} InOrderKeepsExact(own: string, log: Log, r: Receiver, evs: seq<Event>)
    requires Ordered(log) && Exact(own, log, r) && InOrderFrom(own, log, r, evs)
    ensures Exact(own, log, Run(own, r, evs))
  {
    if evs != [] {
      var n := |evs| - 1;
      forall k | 0 <= k < n ensures InOrder(log, Run(own, r, evs[..n][..k]), evs[..n][k]) {
        assert evs[..n][..k] == evs[..k];
      }
      InOrderKeepsExact(own, log, r, evs[..n]);
      StepKeepsExact(own, log, Run(own, r, evs[..n]), evs[n]);
    }
  }

  // The continuation delivers exactly the log up to the furthest entry seen.
  ghost predicate DeliversSeen(own: string, log: Log, r: Receiver, evs: seq<Event>) {
    var r' := Run(own, r, evs);
    r'.seen <= |log| && r'.emitted == Delivered(own, [], log[..r'.seen])
  }

  ghost predicate AlwaysDelivers(own: string, log: Log, r: Receiver) {
    forall more: Log, evs: seq<Event> :: Ordered(log + more) && InOrderFrom(own, log + more, r, evs)
      ==> DeliversSeen(own, log + more, r, evs)
  }

  lemma ExactAlwaysDelivers(own: string, log: Log, r: Receiver)
    requires Exact(own, log, r)
    ensures AlwaysDelivers(own, log, r)
  {
    forall more: Log, evs: seq<Event> | Ordered(log + more) && InOrderFrom(own, log + more, r, evs)
      ensures DeliversSeen(own, log + more, r, evs)
    {
      ExactWhenLogGrows(own, log, more, r);
      InOrderKeepsExact(own, log + more, r, evs);
      ExactIsDelivered(own, log + more, Run(own, r, evs));
    }
  }

  // A call that writes a mark is the one for the first unseen entry.
  lemma WritingIsFirstUnseen(own: string, log: Log, r: Receiver, id: nat)
    requires Ordered(log) && Exact(own, log, r) && id in r.handling && r.handling[id].WritingMarks?
    ensures var h := r.handling[id];
      && r.handling == map[id := h] && h.at == r.seen < |log| && h.e == log[h.at] && Foreign(own, h.e)
      && Accepts(own, r.marks, h.e) && h.updated == r.marks[h.e.clientId := h.e.nonce]
  {
    var h := r.handling[id];
    assert r.handling == map[id := h];
    if h.at < r.seen { ReplayOne(own, log, r.seen, h.at); }
  }

  // After the failure the entry is shown once more; the filter takes it for an old one.
  lemma ShownAgain(own: string, log: Log, r: Receiver) returns (evs: seq<Event>)
    requires r.handling == map[] && r.seen < |log| && Foreign(own, log[r.seen]) && !Accepts(own, r.marks, log[r.seen])
    ensures InOrderFrom(own, log, r, evs)
    ensures Run(own, r, evs).emitted == r.emitted && Run(own, r, evs).seen == r.seen + 1
  {
    var arrival, resumed := Arrival(r.seen, log[r.seen]), Resumed(r.nextId);
    evs := [arrival] + [resumed];
    RunOne(own, r, arrival);
    RunMore(own, r, [arrival], resumed);
    assert evs[..0] == [] && evs[..1] == [arrival];
  }

  lemma FailedWriteMisses(own: string, log: Log, r: Receiver, id: nat)
    requires Ordered(log) && Exact(own, log, r) && id in r.handling && r.handling[id].WritingMarks?
    ensures !AlwaysDelivers(own, log, Fail(r, id, true))
  {
    WritingIsFirstUnseen(own, log, r, id);
    var r', n := Fail(r, id, true), r.seen;
    assert r'.handling == map[];
    var evs := ShownAgain(own, log, r');
    ExactIsDelivered(own, log, r);
    assert log[..n + 1][..n] == log[..n] && [] + log[..n] == log[..n];
    ExactHasNot(own, log, r, log[n]);
    assert Delivered(own, [], log[..n + 1]) == Delivered(own, [], log[..n]) + [log[n]];
    assert log + [] == log;
    assert !DeliversSeen(own, log + [], r', evs);
  }

  // What the marks still accept is new to the entries seen so far.
  lemma ExactHasNot(own: string, log: Log, r: Receiver, e: Entry)
    requires Ordered(log) && Exact(own, log, r) && Accepts(own, r.marks, e)
    ensures IsNew(own, log[..r.seen], e)
  {
    OrderedPart(log, r.seen, r.seen, r.seen);
    assert log[..r.seen] + log[r.seen..r.seen] == log[..r.seen];
    FilterDelivers(own, log[..r.seen]);
  }

  /** The exact condition on a failing call: whatever is published later, every in-order continuation
      delivers exactly the log up to the furthest entry seen, if and only if the new mark had not
      been written when the call failed. */
  lemma FailureHarmlessIff(own: string, log: Log, r: Receiver, id: nat, persisted: bool)
    requires Ordered(log) && Exact(own, log, r) && id in r.handling
    ensures AlwaysDelivers(own, log, Fail(r, id, persisted)) <==> r.handling[id].ReadingMarks? || !persisted
  {
    if r.handling[id].WritingMarks? && persisted {
      FailedWriteMisses(own, log, r, id);
    } else {
      assert r.handling == map[id := r.handling[id]];
      assert Drop(r, id).handling == map[];
      ExactAlwaysDelivers(own, log, Fail(r, id, persisted));
    }
  }

  // From emission `from` on, nothing of the client with a nonce up to n has come out, nor ever will.
  ghost predicate Past(own: string, r: Receiver, clientId: string, n: int, from: nat) {
    && Latest(r.marks, clientId) >= n
    && forall k :: from <= k < |r.emitted| && r.emitted[k].Message? && r.emitted[k].clientId == clientId ==> r.emitted[k].nonce > n
  }

  lemma StepKeepsPast(own: string, r: Receiver, ev: Event, clientId: string, n: int, from: nat)
    requires Inv(own, r) && Past(own, r, clientId, n, from)
    ensures Past(own, Step(own, r, ev), clientId, n, from)
  {
    match ev
    case Resumed(id) =>
      if id in r.handling && r.handling[id].WritingMarks? { assert Accepts(own, r.marks, r.handling[id].e); }
    case Failed(id, persisted) =>
      if id in r.handling && r.handling[id].WritingMarks? { assert Accepts(own, r.marks, r.handling[id].e); }
    case _ =>
  }

  lemma {:induction false} AllowedKeepsPast(own: string, r: Receiver, evs: seq<Event>, clientId: string, n: int, from: nat)
    requires Inv(own, r) && AllowedFrom(own, r, evs) && Past(own, r, clientId, n, from)
    ensures Past(own, Run(own, r, evs), clientId, n, from)
  {
    if evs != [] {
      var m := |evs| - 1;
      forall k | 0 <= k < m ensures Allowed(own, Run(own, r, evs[..m][..k]), evs[..m][k]) {
        assert evs[..m][..k] == evs[..k];
      }
      AllowedKeepsInv(own, r, evs[..m]);
      AllowedKeepsPast(own, r, evs[..m], clientId, n, from);
      StepKeepsPast(own, Run(own, r, evs[..m]), evs[m], clientId, n, from);
    }
  }

  /** A message whose handling fails after its mark was written was never emitted and never will be: in
      no continuation, however often the relay shows it again. */
  lemma FailedWriteLosesForever(own: string, r: Receiver, id: nat, evs: seq<Event>)
    requires Inv(own, r) && id in r.handling && r.handling[id].WritingMarks?
    requires AllowedFrom(own, Fail(r, id, true), evs)
    ensures var emitted := Run(own, Fail(r, id, true), evs).emitted;
      forall k :: 0 <= k < |emitted| ==> !SameMessage(emitted[k], r.handling[id].e)
  {
    var r', e := Fail(r, id, true), r.handling[id].e;
    FailKeepsInv(own, r, id, true);
    AllowedKeepsPast(own, r', evs, e.clientId, e.nonce, |r.emitted|);
    EmittedStays(own, r', evs);
  }

  lemma {:induction false} EmittedStays(own: string, r: Receiver, evs: seq<Event>)
    ensures r.emitted <= Run(own, r, evs).emitted
  {
    if evs != [] { EmittedStays(own, r, evs[..|evs| - 1]); }
  }
}
