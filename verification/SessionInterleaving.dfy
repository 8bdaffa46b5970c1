// SessionStore with any number of calls in flight, cut at every await
// (packages/core/src/session-store/index.ts). `list` and the garbage collection are sequences of
// gets here; beyond those they only read.

module SessionInterleaving {
  import opened SessionBook

  // What a mutating call does to its id: set() adds, delete() removes.
  datatype Kind = Add | Del

  // Where a call is suspended. The key-value store promises no order between operations in flight: one
  // may have taken effect long before the call that awaits it goes on.
  datatype Call =
    | Reading(id: string)                                 // get: the record is being read
    | Writing(kind: Kind, id: string)                     // the record operation has not taken effect yet
    | Written(kind: Kind, id: string)                     // it has; the call has not gone on
    | InQueue(kind: Kind, id: string)                     // joined the mutex; at its head, reading the list
    | WritingList(kind: Kind, id: string, ids: seq<string>) // at its head: the new list is being written

  // `turns` is the mutex: it serves first in, first out, and its head is the holder.
  datatype Store = Store(records: set<string>, ids: seq<string>, calls: map<nat, Call>, nextCall: nat, turns: seq<nat>)

  const EMPTY := Store({}, [], map[], 0, [])

  datatype Event =
    | Begin(kind: Kind, id: string)
    | BeginGet(id: string)
    | Advance(call: nat, unusable: bool)   // unusable: the record read had expired or did not parse

  function Apply(kind: Kind, ids: seq<string>, id: string): seq<string> {
    if kind.Add? then AddId(ids, id) else RemoveId(ids, id)
  }

  function Open(s: Store, c: Call): Store { s.(calls := s.calls[s.nextCall := c], nextCall := s.nextCall + 1) }

  function Drop(s: Store, t: nat): Store { s.(calls := s.calls - {t}) }

  // The holder leaves the mutex with this list in place; the next in the queue holds it.
  function Release(s: Store, t: nat, ids: seq<string>): Store
    requires s.turns != []
  {
    Drop(s, t).(turns := s.turns[1..], ids := ids)
  }

  predicate Head(s: Store, t: nat) { s.turns != [] && s.turns[0] == t }

  // The holder has read the list.
  function ListRead(s: Store, t: nat): Store
    requires t in s.calls && s.calls[t].InQueue?
  {
    s.(calls := s.calls[t := WritingList(s.calls[t].kind, s.calls[t].id, Apply(s.calls[t].kind, s.ids, s.calls[t].id))])
  }

  function AdvanceCall(s: Store, t: nat, unusable: bool): Store
    requires t in s.calls
  {
    match s.calls[t]
    case Reading(id) => if unusable then s.(calls := s.calls[t := Writing(Del, id)]) else Drop(s, t)
    case Writing(kind, id) =>
      s.(records := if kind.Add? then s.records + {id} else s.records - {id}, calls := s.calls[t := Written(kind, id)])
    case Written(kind, id) => s.(turns := s.turns + [t], calls := s.calls[t := InQueue(kind, id)])
    case InQueue(kind, id) =>
      if !Head(s, t) then s
      else if kind.Add? && id in s.ids then Release(s, t, s.ids)
      else ListRead(s, t)
    case WritingList(kind, id, ids) => if Head(s, t) then Release(s, t, ids) else s
  }

  function Step(s: Store, ev: Event): Store {
    match ev
    case Begin(kind, id) => Open(s, Writing(kind, id))
    case BeginGet(id) => Open(s, Reading(id))
    case Advance(t, unusable) => if t in s.calls then AdvanceCall(s, t, unusable) else s
  }

  function Run(s: Store, evs: seq<Event>): Store
    decreases |evs|
  {
    if evs == [] then s else Run(Step(s, evs[0]), evs[1..])
  }

  // ---- The condition ----

  predicate BeforeMutex(c: Call) { c.Writing? || c.Written? }
  predicate Joined(c: Call) { c.InQueue? || c.WritingList? }

  // A mutator of the opposite kind for the same id is under way and has not joined the mutex yet.
  predicate Clash(s: Store, kind: Kind, id: string) {
    exists t :: t in s.calls && BeforeMutex(s.calls[t]) && s.calls[t].id == id && s.calls[t].kind != kind
  }

  // A get that finds an unusable record starts a delete.
  predicate Allowed(s: Store, ev: Event) {
    match ev
    case Begin(kind, id) => !Clash(s, kind, id)
    case BeginGet(_) => true
    case Advance(t, unusable) => t in s.calls && s.calls[t].Reading? && unusable ==> !Clash(s, Del, s.calls[t].id)
  }

  predicate AllowedRun(s: Store, evs: seq<Event>)
    decreases |evs|
  {
    evs == [] || (Allowed(s, evs[0]) && AllowedRun(Step(s, evs[0]), evs[1..]))
  }

  // ---- The invariant ----

  predicate MutexOk(s: Store) {
    && (forall t :: t in s.calls ==> t < s.nextCall)
    && (forall k :: 0 <= k < |s.turns| ==> s.turns[k] in s.calls && Joined(s.calls[s.turns[k]]))
    && (forall j, k :: 0 <= j < k < |s.turns| ==> s.turns[j] != s.turns[k])
    && (forall t :: t in s.calls && Joined(s.calls[t]) ==> t in s.turns)
    && (forall t :: t in s.calls && s.calls[t].WritingList? ==>
          Head(s, t) && s.calls[t].ids == Apply(s.calls[t].kind, s.ids, s.calls[t].id))
  }

  predicate SameKinds(s: Store) {
    forall t, u :: t in s.calls && u in s.calls && BeforeMutex(s.calls[t]) && BeforeMutex(s.calls[u]) && s.calls[t].id == s.calls[u].id
      ==> s.calls[t].kind == s.calls[u].kind
  }

  // The kind and id of the calls in the queue, in their order.
  datatype Turn = Turn(kind: Kind, id: string)

  function TurnOf(c: Call): Turn { if c.Reading? then Turn(Del, c.id) else Turn(c.kind, c.id) }

  function Turns(calls: map<nat, Call>, turns: seq<nat>): (r: seq<Turn>)
    requires forall k :: 0 <= k < |turns| ==> turns[k] in calls
    ensures |r| == |turns| && forall k :: 0 <= k < |r| ==> r[k] == TurnOf(calls[turns[k]])
  {
    seq(|turns|, k requires 0 <= k < |turns| => TurnOf(calls[turns[k]]))
  }

  // Whether the id will be listed when the whole queue has been served.
  predicate WillBeListed(ids: seq<string>, queue: seq<Turn>, id: string) {
    if queue == [] then id in ids
    else if queue[|queue| - 1].id == id then queue[|queue| - 1].kind.Add?
    else WillBeListed(ids, queue[..|queue| - 1], id)
  }

  predicate Listable(s: Store, id: string)
    requires MutexOk(s)
  {
    WillBeListed(s.ids, Turns(s.calls, s.turns), id)
  }

  predicate WrittenFor(s: Store, id: string) { exists t :: t in s.calls && s.calls[t].Written? && s.calls[t].id == id }

  // A written record is of the kind of the calls about to join the mutex; without such a call it is what
  // the queue will make of the list.
  ghost predicate Matching(s: Store)
    requires MutexOk(s)
  {
    WrittenMatch(s) && forall id: string :: ListMatch(s, id)
  }

  predicate WrittenMatch(s: Store) {
    forall t :: t in s.calls && s.calls[t].Written? ==> (s.calls[t].id in s.records <==> s.calls[t].kind.Add?)
  }

  predicate ListMatch(s: Store, id: string)
    requires MutexOk(s)
  {
    !WrittenFor(s, id) ==> (id in s.records <==> Listable(s, id))
  }

  ghost predicate Inv(s: Store) { Distinct(s.ids) && MutexOk(s) && SameKinds(s) && Matching(s) }

  // No mutator of the id is in flight.
  predicate Quiet(s: Store, id: string) { forall t :: t in s.calls && !s.calls[t].Reading? ==> s.calls[t].id != id }

  ghost predicate QuietIdsConsistent(s: Store) {
    Distinct(s.ids) && forall id: string :: Quiet(s, id) ==> (id in s.ids <==> id in s.records)
  }

  // ---- The queue ----

  lemma ApplyMembers(kind: Kind, ids: seq<string>, id: string)
    requires Distinct(ids)
    ensures Distinct(Apply(kind, ids, id))
    ensures forall x :: x in Apply(kind, ids, id) <==> if x == id then kind.Add? else x in ids
  {
    AddIdMembers(ids, id);
    RemoveIdMembers(ids, id);
  }

  lemma JoinListed(ids: seq<string>, queue: seq<Turn>, turn: Turn, id: string)
    ensures WillBeListed(ids, queue + [turn], id) <==> if turn.id == id then turn.kind.Add? else WillBeListed(ids, queue, id)
  {
    assert (queue + [turn])[..|queue|] == queue;
  }

  // Serving the head changes nothing of what the whole queue comes to.
  lemma {:induction false} ServeListed(ids: seq<string>, ids': seq<string>, queue: seq<Turn>, id: string)
    requires queue != []
    requires id in ids' <==> if id == queue[0].id then queue[0].kind.Add? else id in ids
    ensures WillBeListed(ids', queue[1..], id) <==> WillBeListed(ids, queue, id)
    decreases |queue|
  {
    var n := |queue| - 1;
    if n == 0 {
      assert queue[1..] == [];
    } else {
      assert queue[1..][..n - 1] == queue[..n][1..] && queue[1..][n - 1] == queue[n];
      if queue[n].id != id { ServeListed(ids, ids', queue[..n], id); }
    }
  }

  lemma {:induction false} UntouchedListed(ids: seq<string>, queue: seq<Turn>, id: string)
    requires forall k :: 0 <= k < |queue| ==> queue[k].id != id
    ensures WillBeListed(ids, queue, id) <==> id in ids
  {
    if queue != [] { UntouchedListed(ids, queue[..|queue| - 1], id); }
  }

  // The queue's calls keep kind and id, whatever else happens to the map.
  lemma SameTurns(a: map<nat, Call>, b: map<nat, Call>, turns: seq<nat>)
    requires forall k :: 0 <= k < |turns| ==> turns[k] in a && turns[k] in b && TurnOf(a[turns[k]]) == TurnOf(b[turns[k]])
    ensures Turns(a, turns) == Turns(b, turns)
  {
  }

  // ---- Every allowed step keeps the invariant ----

  // The list, the queue and what the queue comes to are as they were.
  lemma SameListable(s: Store, s': Store)
    requires MutexOk(s) && MutexOk(s') && s'.ids == s.ids && s'.turns == s.turns
    requires forall k :: 0 <= k < |s.turns| ==> TurnOf(s'.calls[s.turns[k]]) == TurnOf(s.calls[s.turns[k]])
    ensures forall id: string :: Listable(s', id) <==> Listable(s, id)
  {
    SameTurns(s.calls, s'.calls, s.turns);
  }

  lemma SameWritten(s: Store, s': Store, id: string)
    requires forall t :: (t in s'.calls && s'.calls[t].Written? && s'.calls[t].id == id)
                         <==> (t in s.calls && s.calls[t].Written? && s.calls[t].id == id)
    ensures WrittenFor(s', id) <==> WrittenFor(s, id)
  {
  }

  // Neither records, nor the calls about to join, nor what the queue comes to have changed.
  ghost predicate Alike(s: Store, s': Store) {
    && MutexOk(s) && MutexOk(s') && s'.records == s.records
    && (forall t :: (t in s'.calls && s'.calls[t].Written?) <==> (t in s.calls && s.calls[t].Written?))
    && (forall t :: t in s.calls && s.calls[t].Written? ==> t in s'.calls && s'.calls[t] == s.calls[t])
    && (forall id: string :: Listable(s', id) <==> Listable(s, id))
  }

  lemma AlikeMatching(s: Store, s': Store)
    requires Alike(s, s') && Matching(s)
    ensures Matching(s')
  {
    forall id: string ensures ListMatch(s', id) {
      SameWritten(s, s', id);
      assert ListMatch(s, id);
    }
  }

  lemma BeginKeepsMutexOk(s: Store, c: Call)
    requires MutexOk(s) && (c.Reading? || c.Writing?)
    ensures MutexOk(Open(s, c))
  {
  }

  lemma BeginKeepsInv(s: Store, c: Call)
    requires Inv(s) && (c.Reading? || (c.Writing? && !Clash(s, c.kind, c.id)))
    ensures Inv(Open(s, c))
  {
    var s' := Open(s, c);
    BeginKeepsMutexOk(s, c);
    SameListable(s, s');
    AlikeMatching(s, s');
  }

  lemma ReadingKeepsMutexOk(s: Store, t: nat, unusable: bool)
    requires MutexOk(s) && t in s.calls && s.calls[t].Reading?
    ensures MutexOk(AdvanceCall(s, t, unusable))
  {
  }

  lemma ReadingKeepsMatching(s: Store, t: nat, unusable: bool)
    requires MutexOk(s) && Matching(s) && t in s.calls && s.calls[t].Reading? && MutexOk(AdvanceCall(s, t, unusable))
    ensures Matching(AdvanceCall(s, t, unusable))
  {
    SameListable(s, AdvanceCall(s, t, unusable));
    AlikeMatching(s, AdvanceCall(s, t, unusable));
  }

  lemma ReadingKeepsInv(s: Store, t: nat, unusable: bool)
    requires Inv(s) && t in s.calls && s.calls[t].Reading? && Allowed(s, Advance(t, unusable))
    ensures Inv(AdvanceCall(s, t, unusable))
  {
    ReadingKeepsMutexOk(s, t, unusable);
    ReadingKeepsMatching(s, t, unusable);
  }

  lemma WritingKeepsMutexOk(s: Store, t: nat, unusable: bool)
    requires MutexOk(s) && t in s.calls && s.calls[t].Writing?
    ensures MutexOk(AdvanceCall(s, t, unusable))
  {
  }

  lemma WritingKeepsWrittenMatch(s: Store, t: nat, unusable: bool)
    requires SameKinds(s) && WrittenMatch(s) && t in s.calls && s.calls[t].Writing?
    ensures WrittenMatch(AdvanceCall(s, t, unusable))
  {
  }

  lemma WritingKeepsListMatch(s: Store, t: nat, unusable: bool, id: string)
    requires MutexOk(s) && ListMatch(s, id) && t in s.calls && s.calls[t].Writing? && MutexOk(AdvanceCall(s, t, unusable))
    ensures ListMatch(AdvanceCall(s, t, unusable), id)
  {
    var s', c := AdvanceCall(s, t, unusable), s.calls[t];
    SameListable(s, s');
    if id == c.id {
      assert s'.calls[t].Written? && s'.calls[t].id == id;
    } else {
      SameWritten(s, s', id);
    }
  }

  lemma WritingKeepsInv(s: Store, t: nat, unusable: bool)
    requires Inv(s) && t in s.calls && s.calls[t].Writing?
    ensures Inv(AdvanceCall(s, t, unusable))
  {
    WritingKeepsMutexOk(s, t, unusable);
    WritingKeepsWrittenMatch(s, t, unusable);
    forall id: string ensures ListMatch(AdvanceCall(s, t, unusable), id) { WritingKeepsListMatch(s, t, unusable, id); }
  }

  lemma WrittenKeepsMutexOk(s: Store, t: nat, unusable: bool)
    requires MutexOk(s) && t in s.calls && s.calls[t].Written?
    ensures MutexOk(AdvanceCall(s, t, unusable))
  {
    var s' := AdvanceCall(s, t, unusable);
    assert t !in s.turns;
    forall u | u in s'.calls && Joined(s'.calls[u]) ensures u in s'.turns {
      if u == t { assert s'.turns[|s.turns|] == t; }
    }
  }

  // The call joins the queue: its kind is the last word on its id.
  lemma JoinedListable(s: Store, t: nat, unusable: bool, id: string)
    requires MutexOk(s) && t in s.calls && s.calls[t].Written? && MutexOk(AdvanceCall(s, t, unusable))
    ensures Listable(AdvanceCall(s, t, unusable), id) <==> if s.calls[t].id == id then s.calls[t].kind.Add? else Listable(s, id)
  {
    var s', c := AdvanceCall(s, t, unusable), s.calls[t];
    assert t !in s.turns;
    assert Turns(s'.calls, s'.turns) == Turns(s.calls, s.turns) + [Turn(c.kind, c.id)];
    JoinListed(s.ids, Turns(s.calls, s.turns), Turn(c.kind, c.id), id);
  }

  lemma WrittenKeepsListMatch(s: Store, t: nat, unusable: bool, id: string)
    requires MutexOk(s) && WrittenMatch(s) && ListMatch(s, id) && t in s.calls && s.calls[t].Written?
    requires MutexOk(AdvanceCall(s, t, unusable))
    ensures ListMatch(AdvanceCall(s, t, unusable), id)
  {
    JoinedListable(s, t, unusable, id);
    if id != s.calls[t].id { SameWritten(s, AdvanceCall(s, t, unusable), id); }
  }

  lemma WrittenKeepsInv(s: Store, t: nat, unusable: bool)
    requires Inv(s) && t in s.calls && s.calls[t].Written?
    ensures Inv(AdvanceCall(s, t, unusable))
  {
    WrittenKeepsMutexOk(s, t, unusable);
    forall id: string ensures ListMatch(AdvanceCall(s, t, unusable), id) { WrittenKeepsListMatch(s, t, unusable, id); }
  }

  // The holder leaves the mutex with its list in place.
  lemma ReleaseKeepsMutexOk(s: Store, t: nat)
    requires MutexOk(s) && Head(s, t)
    ensures MutexOk(Release(s, t, Apply(s.calls[t].kind, s.ids, s.calls[t].id)))
  {
    var s' := Release(s, t, Apply(s.calls[t].kind, s.ids, s.calls[t].id));
    forall u | u in s'.calls && Joined(s'.calls[u]) ensures u in s'.turns {
      var k :| 0 <= k < |s.turns| && s.turns[k] == u;
      assert s'.turns[k - 1] == u;
    }
  }

  lemma ReleasedListable(s: Store, t: nat, id: string)
    requires Distinct(s.ids) && MutexOk(s) && Head(s, t)
    requires MutexOk(Release(s, t, Apply(s.calls[t].kind, s.ids, s.calls[t].id)))
    ensures Listable(Release(s, t, Apply(s.calls[t].kind, s.ids, s.calls[t].id)), id) <==> Listable(s, id)
  {
    var c := s.calls[t];
    var s' := Release(s, t, Apply(c.kind, s.ids, c.id));
    ApplyMembers(c.kind, s.ids, c.id);
    var queue := Turns(s.calls, s.turns);
    assert Turns(s'.calls, s'.turns) == queue[1..];
    ServeListed(s.ids, s'.ids, queue, id);
  }

  lemma ReleaseAlike(s: Store, t: nat)
    requires Distinct(s.ids) && MutexOk(s) && Head(s, t)
    ensures Alike(s, Release(s, t, Apply(s.calls[t].kind, s.ids, s.calls[t].id)))
  {
    ReleaseKeepsMutexOk(s, t);
    assert Joined(s.calls[t]);
    forall id: string ensures Listable(Release(s, t, Apply(s.calls[t].kind, s.ids, s.calls[t].id)), id) <==> Listable(s, id) {
      ReleasedListable(s, t, id);
    }
  }

  lemma ReleaseKeepsInv(s: Store, t: nat)
    requires Inv(s) && Head(s, t)
    ensures Inv(Release(s, t, Apply(s.calls[t].kind, s.ids, s.calls[t].id)))
  {
    var s' := Release(s, t, Apply(s.calls[t].kind, s.ids, s.calls[t].id));
    ReleaseAlike(s, t);
    AlikeMatching(s, s');
    ApplyMembers(s.calls[t].kind, s.ids, s.calls[t].id);
    assert SameKinds(s');
  }

  lemma ListReadKeepsMutexOk(s: Store, t: nat)
    requires MutexOk(s) && Head(s, t) && s.calls[t].InQueue?
    ensures MutexOk(ListRead(s, t))
  {
  }

  lemma ListReadKeepsInv(s: Store, t: nat)
    requires Inv(s) && Head(s, t) && s.calls[t].InQueue?
    ensures Inv(ListRead(s, t))
  {
    ListReadKeepsMutexOk(s, t);
    SameListable(s, ListRead(s, t));
    AlikeMatching(s, ListRead(s, t));
  }

  lemma InQueueKeepsInv(s: Store, t: nat, unusable: bool)
    requires Inv(s) && t in s.calls && s.calls[t].InQueue?
    ensures Inv(AdvanceCall(s, t, unusable))
  {
    var c := s.calls[t];
    if Head(s, t) && c.kind.Add? && c.id in s.ids {
      ReleaseKeepsInv(s, t);
    } else if Head(s, t) {
      ListReadKeepsInv(s, t);
    }
  }

  lemma AdvanceKeepsInv(s: Store, t: nat, unusable: bool)
    requires Inv(s) && t in s.calls && Allowed(s, Advance(t, unusable))
    ensures Inv(AdvanceCall(s, t, unusable))
  {
    match s.calls[t]
    case Reading(_) => ReadingKeepsInv(s, t, unusable);
    case Writing(_, _) => WritingKeepsInv(s, t, unusable);
    case Written(_, _) => WrittenKeepsInv(s, t, unusable);
    case InQueue(_, _) => InQueueKeepsInv(s, t, unusable);
    case WritingList(_, _, _) => ReleaseKeepsInv(s, t);
  }

  lemma StepKeepsInv(s: Store, ev: Event)
    requires Inv(s) && Allowed(s, ev)
    ensures Inv(Step(s, ev))
  {
    match ev
    case Begin(kind, id) => BeginKeepsInv(s, Writing(kind, id));
    case BeginGet(id) => BeginKeepsInv(s, Reading(id));
    case Advance(t, unusable) => if t in s.calls { AdvanceKeepsInv(s, t, unusable); }
  }

  lemma QuietListable(s: Store, id: string)
    requires MutexOk(s) && Quiet(s, id)
    ensures Listable(s, id) <==> id in s.ids
  {
    UntouchedListed(s.ids, Turns(s.calls, s.turns), id);
  }

  lemma InvIsConsistent(s: Store)
    requires Inv(s)
    ensures QuietIdsConsistent(s)
  {
    forall id: string | Quiet(s, id) ensures id in s.ids <==> id in s.records {
      QuietListable(s, id);
      assert ListMatch(s, id);
    }
  }

  lemma {:induction false} AllowedRunKeepsInv(s: Store, evs: seq<Event>)
    requires Inv(s) && AllowedRun(s, evs)
    ensures Inv(Run(s, evs))
    decreases |evs|
  {
    if evs != [] {
      StepKeepsInv(s, evs[0]);
      AllowedRunKeepsInv(Step(s, evs[0]), evs[1..]);
    }
  }

  /** For every interleaving of any number of set, get and delete calls at their awaits, in which no
      mutator is started while one of the opposite kind for the same id has not joined the mutex:
      the master list never holds duplicates, and every id with no mutator in flight is listed
      exactly when its record exists. */
  lemma ListMatchesRecords(evs: seq<Event>)
    requires AllowedRun(EMPTY, evs)
    ensures QuietIdsConsistent(Run(EMPTY, evs))
  {
    AllowedRunKeepsInv(EMPTY, evs);
    InvIsConsistent(Run(EMPTY, evs));
  }

  // ---- A call on its own ----

  // The call goes on until it is done; at its end there is nothing left to go on.
  function Onward(t: nat): seq<Event> { [Advance(t, false), Advance(t, false), Advance(t, false), Advance(t, false)] }

  // Record and list after a set() or delete() of the id.
  function Performed(s: Store, kind: Kind, id: string): Store {
    if kind.Add?
    then s.(records := s.records + {id}, ids := if id in s.ids then s.ids else s.ids + [id])
    else s.(records := s.records - {id}, ids := RemoveId(s.ids, id))
  }

  lemma OnwardPerforms(s: Store, t: nat, kind: Kind, id: string)
    requires s.turns == [] && t in s.calls && s.calls[t] == Writing(kind, id)
    ensures Run(s, Onward(t)) == Performed(s, kind, id).(calls := s.calls - {t})
  {
    var go := Advance(t, false);
    var s1 := Step(s, go);
    var s2 := Step(s1, go);
    var s3 := Step(s2, go);
    var s4 := Step(s3, go);
    RunFour(s, go);
    assert s2.turns == [t] && s2.turns[1..] == [];
    if kind.Add? && id in s.ids {
      assert s3.calls == s.calls - {t} && s4 == s3;
    } else {
      assert s4.calls == s.calls - {t};
    }
  }

  lemma RunFour(s: Store, ev: Event)
    ensures Run(s, [ev, ev, ev, ev]) == Step(Step(Step(Step(s, ev), ev), ev), ev)
  {
    assert [ev, ev, ev, ev][1..] == [ev, ev, ev] && [ev, ev, ev][1..] == [ev, ev] && [ev, ev][1..] == [ev];
    assert Run(s, [ev, ev, ev, ev]) == Run(Step(Step(s, ev), ev), [ev, ev]);
    RunOne(Step(Step(Step(s, ev), ev), ev), ev);
  }

  /** Whatever other calls are suspended before the mutex, a set() or delete() that then runs without
      interruption is the whole operation: a set leaves record and list entry, a delete neither, and
      everything else in the store is as it was. */
  lemma AloneIsWhole(s: Store, kind: Kind, id: string)
    requires MutexOk(s) && s.turns == []
    ensures Run(s, [Begin(kind, id)] + Onward(s.nextCall)) == Performed(s, kind, id).(nextCall := s.nextCall + 1)
  {
    var t, begun := s.nextCall, Open(s, Writing(kind, id));
    assert ([Begin(kind, id)] + Onward(t))[1..] == Onward(t);
    OnwardPerforms(begun, t, kind, id);
    assert begun.calls - {t} == s.calls;
  }

  /** A get() that reads an unusable record is a delete, any other changes nothing. */
  lemma GetAloneIsWhole(s: Store, id: string, unusable: bool)
    requires MutexOk(s) && s.turns == []
    ensures Run(s, [BeginGet(id), Advance(s.nextCall, unusable)] + Onward(s.nextCall))
            == (if unusable then Performed(s, Del, id) else s).(nextCall := s.nextCall + 1)
  {
    var t, read := s.nextCall, Open(s, Reading(id));
    assert read.calls - {t} == s.calls;
    var evs := [BeginGet(id), Advance(t, unusable)] + Onward(t);
    assert evs[1..][1..] == Onward(t) && evs[1..][0] == Advance(t, unusable);
    var after := Step(read, Advance(t, unusable));
    assert Run(s, evs) == Run(after, Onward(t));
    if unusable {
      OnwardPerforms(after, t, Del, id);
      assert after.calls - {t} == s.calls;
    } else {
      RunFour(after, Advance(t, false));
    }
  }

  // ---- The condition is exact ----

  // Continuations in which suspended calls just go on.
  predicate OnlyAdvances(evs: seq<Event>) { forall k :: 0 <= k < |evs| ==> evs[k].Advance? && !evs[k].unusable }

  lemma {:induction false} AdvancesAllowed(s: Store, evs: seq<Event>)
    requires OnlyAdvances(evs)
    ensures AllowedRun(s, evs)
    decreases |evs|
  {
    if evs != [] { AdvancesAllowed(Step(s, evs[0]), evs[1..]); }
  }

  lemma {:induction false} RunConcat(s: Store, a: seq<Event>, b: seq<Event>)
    ensures Run(s, a + b) == Run(Run(s, a), b)
    decreases |a|
  {
    if a == [] {
      assert a + b == b;
    } else {
      assert (a + b)[0] == a[0] && (a + b)[1..] == a[1..] + b;
      RunConcat(Step(s, a[0]), a[1..], b);
    }
  }

  lemma RunOne(s: Store, ev: Event)
    ensures Run(s, [ev]) == Step(s, ev)
  {
    assert [ev][1..] == [];
  }

  // The record operation of a call takes effect, unless it already has.
  lemma TakeEffect(s: Store, t: nat) returns (evs: seq<Event>)
    requires MutexOk(s) && t in s.calls && BeforeMutex(s.calls[t])
    ensures OnlyAdvances(evs)
    ensures var s', c := Run(s, evs), s.calls[t];
      && MutexOk(s') && s'.ids == s.ids && s'.turns == s.turns && s'.calls == s.calls[t := Written(c.kind, c.id)]
      && (c.Writing? ==> (c.id in s'.records <==> c.kind.Add?)) && (c.Written? ==> s'.records == s.records)
  {
    if s.calls[t].Written? {
      evs := [];
      assert s.calls[t := s.calls[t]] == s.calls;
    } else {
      WritingKeepsMutexOk(s, t, false);
      evs := [Advance(t, false)];
      RunOne(s, evs[0]);
    }
  }

  // Then the call joins the mutex.
  lemma Join(s: Store, t: nat) returns (evs: seq<Event>)
    requires MutexOk(s) && t in s.calls && s.calls[t].Written?
    ensures OnlyAdvances(evs)
    ensures var s', c := Run(s, evs), s.calls[t];
      && MutexOk(s') && s'.ids == s.ids && s'.records == s.records && s'.calls == s.calls[t := InQueue(c.kind, c.id)]
      && (forall id :: Listable(s', id) <==> if c.id == id then c.kind.Add? else Listable(s, id))
  {
    WrittenKeepsMutexOk(s, t, false);
    evs := [Advance(t, false)];
    RunOne(s, evs[0]);
    forall id ensures Listable(Run(s, evs), id) <==> if s.calls[t].id == id then s.calls[t].kind.Add? else Listable(s, id) {
      JoinedListable(s, t, false, id);
    }
  }

  // What a run that serves the queue leaves alone.
  ghost predicate Serves(s: Store, s': Store) {
    && MutexOk(s) && MutexOk(s') && Distinct(s'.ids) && s'.records == s.records
    && (forall t :: t in s'.calls ==> t in s.calls && (s'.calls[t] == s.calls[t] || (Joined(s'.calls[t]) && Joined(s.calls[t]))))
    && (forall id :: Listable(s', id) <==> Listable(s, id))
  }

  lemma ServesTrans(a: Store, b: Store, c: Store)
    requires Serves(a, b) && Serves(b, c)
    ensures Serves(a, c)
  {
  }

  lemma ReleaseServes(s: Store, t: nat)
    requires Distinct(s.ids) && MutexOk(s) && Head(s, t)
    ensures Serves(s, Release(s, t, Apply(s.calls[t].kind, s.ids, s.calls[t].id)))
  {
    ReleaseKeepsMutexOk(s, t);
    ApplyMembers(s.calls[t].kind, s.ids, s.calls[t].id);
    forall id ensures Listable(Release(s, t, Apply(s.calls[t].kind, s.ids, s.calls[t].id)), id) <==> Listable(s, id) {
      ReleasedListable(s, t, id);
    }
  }

  lemma ListReadServes(s: Store, t: nat)
    requires Distinct(s.ids) && MutexOk(s) && Head(s, t) && s.calls[t].InQueue?
    ensures Serves(s, ListRead(s, t))
  {
    ListReadKeepsMutexOk(s, t);
    SameListable(s, ListRead(s, t));
  }

  // The head of the queue runs to its end.
  lemma ServeHead(s: Store) returns (evs: seq<Event>)
    requires Distinct(s.ids) && MutexOk(s) && s.turns != []
    ensures OnlyAdvances(evs) && Serves(s, Run(s, evs)) && Run(s, evs).turns == s.turns[1..]
  {
    var t := s.turns[0];
    var c, go := s.calls[t], Advance(t, false);
    RunOne(s, go);
    ReleaseServes(s, t);
    evs := [go];
    if c.InQueue? && !(c.kind.Add? && c.id in s.ids) {
      var s1 := Step(s, go);
      ListReadServes(s, t);
      RunConcat(s, [go], [go]);
      RunOne(s1, go);
      ReleaseServes(s1, t);
      ServesTrans(s, s1, Step(s1, go));
      evs := [go] + [go];
    }
  }

  lemma {:induction false} ServeAll(s: Store) returns (evs: seq<Event>)
    requires Distinct(s.ids) && MutexOk(s)
    ensures OnlyAdvances(evs) && Serves(s, Run(s, evs)) && Run(s, evs).turns == []
    decreases |s.turns|
  {
    if s.turns == [] {
      evs := [];
    } else {
      var first := ServeHead(s);
      var rest := ServeAll(Run(s, first));
      RunConcat(s, first, rest);
      ServesTrans(s, Run(s, first), Run(Run(s, first), rest));
      evs := first + rest;
    }
  }

  // Calls for the id still before the mutex, other than these two.
  function Others(s: Store, id: string, a: nat, b: nat): set<nat> {
    set t | t in s.calls && BeforeMutex(s.calls[t]) && s.calls[t].id == id && t != a && t != b
  }

  // A mutator takes effect and joins the mutex.
  lemma ToMutex(s: Store, t: nat) returns (evs: seq<Event>)
    requires MutexOk(s) && t in s.calls && BeforeMutex(s.calls[t])
    ensures OnlyAdvances(evs)
    ensures var s', c := Run(s, evs), s.calls[t]; MutexOk(s') && s'.ids == s.ids && s'.calls == s.calls[t := InQueue(c.kind, c.id)]
  {
    var first := TakeEffect(s, t);
    var second := Join(Run(s, first), t);
    RunConcat(s, first, second);
    evs := first + second;
  }

  lemma {:induction false} OthersJoin(s: Store, id: string, a: nat, b: nat) returns (evs: seq<Event>)
    requires MutexOk(s) && a in s.calls && BeforeMutex(s.calls[a]) && b in s.calls && BeforeMutex(s.calls[b])
    ensures OnlyAdvances(evs)
    ensures var s' := Run(s, evs);
      && MutexOk(s') && s'.ids == s.ids && Others(s', id, a, b) == {}
      && a in s'.calls && s'.calls[a] == s.calls[a] && b in s'.calls && s'.calls[b] == s.calls[b]
    decreases Others(s, id, a, b)
  {
    if t :| t in Others(s, id, a, b) {
      var first := ToMutex(s, t);
      var s1 := Run(s, first);
      assert Others(s1, id, a, b) == Others(s, id, a, b) - {t};
      var rest := OthersJoin(s1, id, a, b);
      RunConcat(s, first, rest);
      evs := first + rest;
    } else {
      evs := [];
    }
  }

  // Two opposite calls before the mutex, the later one with its record still to do.
  predicate Opposed(s: Store, id: string, earlier: nat, later: nat) {
    && earlier in s.calls && BeforeMutex(s.calls[earlier]) && s.calls[earlier].id == id
    && later in s.calls && s.calls[later].Writing? && s.calls[later].id == id
    && s.calls[earlier].kind != s.calls[later].kind
  }

  // Both records done, the later call's last.
  predicate BothWritten(s: Store, id: string, earlier: nat, later: nat) {
    && earlier in s.calls && s.calls[earlier].Written? && s.calls[earlier].id == id
    && later in s.calls && s.calls[later].Written? && s.calls[later].id == id
    && s.calls[earlier].kind != s.calls[later].kind
    && (id in s.records <==> s.calls[later].kind.Add?)
  }

  lemma SameOthers(s: Store, s': Store, id: string, a: nat, b: nat)
    requires Others(s, id, a, b) == {}
    requires s'.calls.Keys == s.calls.Keys && forall t :: t in s.calls && t != a && t != b ==> s'.calls[t] == s.calls[t]
    ensures Others(s', id, a, b) == {}
  {
    forall t ensures t !in Others(s', id, a, b) { assert t !in Others(s, id, a, b); }
  }

  lemma WriteBoth(s: Store, id: string, earlier: nat, later: nat) returns (evs: seq<Event>)
    requires MutexOk(s) && Opposed(s, id, earlier, later) && Others(s, id, earlier, later) == {}
    ensures OnlyAdvances(evs)
    ensures var s' := Run(s, evs);
      MutexOk(s') && s'.ids == s.ids && Others(s', id, earlier, later) == {} && BothWritten(s', id, earlier, later)
  {
    var e1 := TakeEffect(s, earlier);
    var s1 := Run(s, e1);
    WrittenOpposed(s, s1, id, earlier, later);
    var e2 := TakeEffect(s1, later);
    RunConcat(s, e1, e2);
    evs := e1 + e2;
    SameOthers(s1, Run(s1, e2), id, earlier, later);
  }

  lemma WrittenOpposed(s: Store, s': Store, id: string, earlier: nat, later: nat)
    requires Opposed(s, id, earlier, later) && Others(s, id, earlier, later) == {}
    requires s'.calls == s.calls[earlier := Written(s.calls[earlier].kind, s.calls[earlier].id)]
    ensures Opposed(s', id, earlier, later) && s'.calls[earlier].Written? && Others(s', id, earlier, later) == {}
  {
    SameOthers(s, s', id, earlier, later);
  }

  lemma JoinBoth(s: Store, id: string, earlier: nat, later: nat) returns (evs: seq<Event>)
    requires MutexOk(s) && BothWritten(s, id, earlier, later) && Others(s, id, earlier, later) == {}
    ensures OnlyAdvances(evs)
    ensures var s' := Run(s, evs);
      && MutexOk(s') && s'.ids == s.ids && Others(s', id, earlier, later) == {}
      && earlier in s'.calls && s'.calls[earlier].InQueue? && later in s'.calls && s'.calls[later].InQueue?
      && (Listable(s', id) <==> id !in s'.records)
  {
    var e1 := Join(s, later);
    var s1 := Run(s, e1);
    var e2 := Join(s1, earlier);
    RunConcat(s, e1, e2);
    evs := e1 + e2;
    SameOthers(s, Run(s1, e2), id, earlier, later);
  }

  // The later call's record operation comes last, and so does the earlier call's turn at the mutex.
  lemma Cross(s: Store, id: string, earlier: nat, later: nat) returns (evs: seq<Event>)
    requires MutexOk(s) && Opposed(s, id, earlier, later) && Others(s, id, earlier, later) == {}
    ensures OnlyAdvances(evs)
    ensures var s' := Run(s, evs);
      && MutexOk(s') && s'.ids == s.ids && Others(s', id, earlier, later) == {}
      && earlier in s'.calls && s'.calls[earlier].InQueue? && later in s'.calls && s'.calls[later].InQueue?
      && (Listable(s', id) <==> id !in s'.records)
  {
    var e1 := WriteBoth(s, id, earlier, later);
    var e2 := JoinBoth(Run(s, e1), id, earlier, later);
    RunConcat(s, e1, e2);
    evs := e1 + e2;
  }

  // Everything for the id has joined; once the queue is served the id is quiet.
  lemma ServedIsQuiet(s: Store, id: string, a: nat, b: nat) returns (evs: seq<Event>)
    requires Distinct(s.ids) && MutexOk(s) && Others(s, id, a, b) == {}
    requires a in s.calls && s.calls[a].InQueue? && b in s.calls && s.calls[b].InQueue?
    ensures OnlyAdvances(evs)
    ensures var s' := Run(s, evs); Quiet(s', id) && s'.records == s.records && (id in s'.ids <==> Listable(s, id))
  {
    evs := ServeAll(s);
    var s' := Run(s, evs);
    forall t | t in s'.calls && !s'.calls[t].Reading? ensures s'.calls[t].id != id {
      NotServed(s, s', id, a, b, t);
    }
    QuietListable(s', id);
  }

  lemma NotServed(s: Store, s': Store, id: string, a: nat, b: nat, t: nat)
    requires Serves(s, s') && s'.turns == [] && Others(s, id, a, b) == {}
    requires a in s.calls && s.calls[a].InQueue? && b in s.calls && s.calls[b].InQueue?
    requires t in s'.calls && !s'.calls[t].Reading?
    ensures s'.calls[t].id != id
  {
    assert !Joined(s'.calls[t]);
    assert BeforeMutex(s.calls[t]) && s.calls[t] == s'.calls[t] && t !in Others(s, id, a, b);
  }

  lemma BeginOpposes(s: Store, kind: Kind, id: string) returns (earlier: nat)
    requires MutexOk(s) && Clash(s, kind, id)
    ensures MutexOk(Step(s, Begin(kind, id))) && Opposed(Step(s, Begin(kind, id)), id, earlier, s.nextCall)
  {
    earlier :| earlier in s.calls && BeforeMutex(s.calls[earlier]) && s.calls[earlier].id == id && s.calls[earlier].kind != kind;
    BeginKeepsMutexOk(s, Writing(kind, id));
  }

  lemma OpposedBreaks(s: Store, id: string, earlier: nat, later: nat) returns (evs: seq<Event>)
    requires Distinct(s.ids) && MutexOk(s) && Opposed(s, id, earlier, later)
    ensures OnlyAdvances(evs) && Quiet(Run(s, evs), id)
    ensures id in Run(s, evs).ids <==> id !in Run(s, evs).records
  {
    var e1 := OthersJoin(s, id, earlier, later);
    var s1 := Run(s, e1);
    var e2 := Cross(s1, id, earlier, later);
    var s2 := Run(s1, e2);
    var e3 := ServedIsQuiet(s2, id, earlier, later);
    RunConcat(s, e1, e2);
    RunConcat(s, e1 + e2, e3);
    evs := e1 + e2 + e3;
  }

  lemma ClashBreaks(s: Store, kind: Kind, id: string) returns (evs: seq<Event>)
    requires Inv(s) && Clash(s, kind, id)
    ensures OnlyAdvances(evs)
    ensures !QuietIdsConsistent(Run(Step(s, Begin(kind, id)), evs))
  {
    var earlier := BeginOpposes(s, kind, id);
    evs := OpposedBreaks(Step(s, Begin(kind, id)), id, earlier, s.nextCall);
  }

  /** In any reachable state, starting a set or delete keeps list and records together in every
      later allowed run if and only if every opposite mutator of the id has joined the mutex. */
  lemma ClashIff(s: Store, kind: Kind, id: string)
    requires Inv(s)
    ensures !Clash(s, kind, id) <==>
      forall evs :: AllowedRun(Step(s, Begin(kind, id)), evs) ==> QuietIdsConsistent(Run(Step(s, Begin(kind, id)), evs))
  {
    var s1 := Step(s, Begin(kind, id));
    if Clash(s, kind, id) {
      var evs := ClashBreaks(s, kind, id);
      AdvancesAllowed(s1, evs);
    } else {
      StepKeepsInv(s, Begin(kind, id));
      forall evs | AllowedRun(s1, evs) ensures QuietIdsConsistent(Run(s1, evs)) {
        AllowedRunKeepsInv(s1, evs);
        InvIsConsistent(Run(s1, evs));
      }
    }
  }
}
