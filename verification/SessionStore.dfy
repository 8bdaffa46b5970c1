// SessionStore as an object over the key-value store, one operation at a time
// (packages/core/src/session-store/index.ts).

module SessionStore {
  import opened Wrappers
  import opened KeyValue
  import opened StorageKeys
  import opened TransportStorage
  import opened SessionBook

  function MasterListOf(data: Data): seq<string> {
    if MASTER_LIST_KEY in data && data[MASTER_LIST_KEY].Ids? then data[MASTER_LIST_KEY].ids else []
  }

  function RecordAt(data: Data, id: string): Option<Value> {
    if SessionKey(id) in data then Some(data[SessionKey(id)]) else None
  }

  function Lookup(data: Data, id: string): Value {
    if RecordAt(data, id).Some? then RecordAt(data, id).value else Unreadable
  }

  // The list has no duplicates and names exactly the ids that have a record, but for these.
  ghost predicate ConsistentBut(data: Data, broken: set<string>) {
    && Distinct(MasterListOf(data))
    && (forall id: string :: id !in broken ==> (RecordAt(data, id).Some? <==> id in MasterListOf(data)))
  }

  ghost predicate Consistent(data: Data) { ConsistentBut(data, {}) }

  function BookFrom(data: Data, ids: seq<string>): Book {
    if ids == [] then []
    else
      var n := |ids| - 1;
      BookFrom(data, ids[..n]) + [Entry(ids[n], Lookup(data, ids[n]))]
  }

  /** What the store holds. */
  function BookOf(data: Data): Book { BookFrom(data, MasterListOf(data)) }

  // b is a with one id's record and the master list changed; whatever is left to a crash in between.
  ghost predicate Becomes(a: Data, b: Data, id: string, v: Option<Value>, ids: seq<string>) {
    && MasterListOf(b) == ids
    && (forall x: string :: RecordAt(b, x) == if x == id then v else RecordAt(a, x))
    && OnlySessionKeysDiffer(a, b)
  }

  lemma {:induction false} BookFromIds(data: Data, ids: seq<string>)
    ensures IdsOf(BookFrom(data, ids)) == ids
  {
    if ids != [] {
      var n := |ids| - 1;
      BookFromIds(data, ids[..n]);
      assert BookFrom(data, ids)[..|BookFrom(data, ids)| - 1] == BookFrom(data, ids[..n]);
    }
  }

  lemma {:induction false} BookFromFind(data: Data, ids: seq<string>, id: string)
    ensures Find(BookFrom(data, ids), id) == if id in ids then Some(Lookup(data, id)) else None
  {
    if ids != [] {
      var n := |ids| - 1;
      BookFromFind(data, ids[..n], id);
      assert BookFrom(data, ids)[..|BookFrom(data, ids)| - 1] == BookFrom(data, ids[..n]);
    }
  }

  lemma {:induction false} BookFromSame(a: Data, b: Data, ids: seq<string>)
    requires forall i :: 0 <= i < |ids| ==> Lookup(a, ids[i]) == Lookup(b, ids[i])
    ensures BookFrom(a, ids) == BookFrom(b, ids)
  {
    if ids != [] { BookFromSame(a, b, ids[..|ids| - 1]); }
  }

  // A write under one session key changes one record and the master list not at all.
  lemma WriteRecord(data: Data, id: string, v: Value)
    ensures Becomes(data, data[SessionKey(id) := v], id, Some(v), MasterListOf(data))
    ensures Becomes(data, data - {SessionKey(id)}, id, None, MasterListOf(data))
  {
    SessionKeyIsNotMasterList(id);
    forall x: string | SessionKey(x) == SessionKey(id) ensures x == id { SamePrefix(SESSION_PREFIX, x, id); }
    assert IsSessionKey(SessionKey(id));
  }

  lemma WriteList(data: Data, ids: seq<string>)
    ensures var data' := data[MASTER_LIST_KEY := Ids(ids)];
      && MasterListOf(data') == ids && (forall x: string :: RecordAt(data', x) == RecordAt(data, x))
      && OnlySessionKeysDiffer(data, data')
  {
    forall x: string ensures SessionKey(x) != MASTER_LIST_KEY { SessionKeyIsNotMasterList(x); }
  }

  lemma {:induction false} ReplaceInBook(a: Data, b: Data, ids: seq<string>, id: string, v: Value)
    requires forall x: string :: Lookup(b, x) == if x == id then v else Lookup(a, x)
    ensures BookFrom(b, ids) == Replace(BookFrom(a, ids), id, v)
  {
    if ids != [] {
      var n := |ids| - 1;
      ReplaceInBook(a, b, ids[..n], id, v);
      assert BookFrom(a, ids)[..|BookFrom(a, ids)| - 1] == BookFrom(a, ids[..n]);
    }
  }

  lemma {:induction false} RemoveInBook(a: Data, b: Data, ids: seq<string>, id: string)
    requires forall x: string :: x != id ==> Lookup(b, x) == Lookup(a, x)
    ensures BookFrom(b, RemoveId(ids, id)) == Remove(BookFrom(a, ids), id)
  {
    if ids != [] {
      var n := |ids| - 1;
      var kept := RemoveId(ids[..n], id);
      RemoveInBook(a, b, ids[..n], id);
      assert BookFrom(a, ids)[..|BookFrom(a, ids)| - 1] == BookFrom(a, ids[..n]);
      if ids[n] != id {
        assert (kept + [ids[n]])[..|kept|] == kept;
      } else {
        assert kept + [] == kept;
        assert Remove(BookFrom(a, ids[..n]), id) + [] == Remove(BookFrom(a, ids[..n]), id);
      }
    }
  }

  lemma BookSnoc(data: Data, ids: seq<string>, id: string)
    ensures BookFrom(data, ids + [id]) == BookFrom(data, ids) + [Entry(id, Lookup(data, id))]
  {
    assert (ids + [id])[..|ids|] == ids;
  }

  lemma NewInBook(a: Data, b: Data, ids: seq<string>, id: string)
    requires id !in ids && forall x: string :: x != id ==> Lookup(b, x) == Lookup(a, x)
    ensures BookFrom(b, ids + [id]) == BookFrom(a, ids) + [Entry(id, Lookup(b, id))]
  {
    BookFromSame(a, b, ids);
    BookSnoc(b, ids, id);
  }

  lemma AddedConsistent(a: Data, b: Data, id: string, v: Value)
    requires Consistent(a) && Becomes(a, b, id, Some(v), AddId(MasterListOf(a), id))
    ensures Consistent(b)
  {
    AddIdMembers(MasterListOf(a), id);
  }

  lemma AddedToBook(a: Data, b: Data, id: string, v: Value)
    requires Consistent(a) && Becomes(a, b, id, Some(v), AddId(MasterListOf(a), id))
    ensures Consistent(b) && BookOf(b) == Put(BookOf(a), id, v)
  {
    var ids := MasterListOf(a);
    AddedConsistent(a, b, id, v);
    BookFromIds(a, ids);
    assert forall x: string :: Lookup(b, x) == if x == id then v else Lookup(a, x);
    if id in ids { ReplaceInBook(a, b, ids, id, v); } else { NewInBook(a, b, ids, id); }
  }

  lemma RemovedFromBook(a: Data, b: Data, id: string)
    requires Consistent(a) && Becomes(a, b, id, None, RemoveId(MasterListOf(a), id))
    ensures Consistent(b) && BookOf(b) == Remove(BookOf(a), id)
  {
    RemoveIdMembers(MasterListOf(a), id);
    RemoveInBook(a, b, MasterListOf(a), id);
  }

  // ---- A crash between the two writes ----

  /** A set() or delete() that stops after its record operation takes its own id out of step, no other. */
  lemma CrashBreaksOne(a: Data, b: Data, id: string, v: Option<Value>, broken: set<string>)
    requires ConsistentBut(a, broken) && Becomes(a, b, id, v, MasterListOf(a))
    ensures ConsistentBut(b, broken + {id})
    ensures ConsistentBut(b, broken) <==> id in broken || (v.Some? <==> id in MasterListOf(a))
  {
  }

  /** The next set() or delete() of the id that runs to its end brings it back into step. */
  lemma CompletedCallHeals(a: Data, b: Data, id: string, v: Option<Value>, broken: set<string>)
    requires ConsistentBut(a, broken)
    requires Becomes(a, b, id, v, if v.Some? then AddId(MasterListOf(a), id) else RemoveId(MasterListOf(a), id))
    ensures ConsistentBut(b, broken - {id})
  {
    AddIdMembers(MasterListOf(a), id);
    RemoveIdMembers(MasterListOf(a), id);
  }

  // ---- Reading every listed record once ----

  // The record of the id exists and cannot be used.
  predicate Stale(data: Data, id: string, now: int) { RecordAt(data, id).Some? && !Live(RecordAt(data, id).value, now) }

  // What stays in the list when entry i is read at clock(i): the usable, and those without a record.
  function Swept(data: Data, ids: seq<string>, clock: nat -> int): seq<string> {
    if ids == [] then []
    else
      var n := |ids| - 1;
      Swept(data, ids[..n], clock) + if Stale(data, ids[n], clock(n)) then [] else [ids[n]]
  }

  predicate StaleIn(data: Data, ids: seq<string>, clock: nat -> int, id: string) {
    exists k :: 0 <= k < |ids| && ids[k] == id && Stale(data, id, clock(k))
  }

  predicate SweptRecord(a: Data, b: Data, ids: seq<string>, clock: nat -> int, id: string) {
    RecordAt(b, id) == if StaleIn(a, ids, clock, id) then None else RecordAt(a, id)
  }

  // Every stale record of the list is gone, and its entry with it; nothing else has changed.
  ghost predicate SweptFrom(a: Data, b: Data, ids: seq<string>, clock: nat -> int) {
    && MasterListOf(b) == Swept(a, ids, clock)
    && (forall x: string :: SweptRecord(a, b, ids, clock, x))
    && OnlySessionKeysDiffer(a, b)
  }

  lemma StaleInSnoc(data: Data, ids: seq<string>, clock: nat -> int, x: string)
    requires ids != []
    ensures var n := |ids| - 1;
      StaleIn(data, ids, clock, x) <==> StaleIn(data, ids[..n], clock, x) || (x == ids[n] && Stale(data, x, clock(n)))
  {
    assert forall k :: 0 <= k < |ids| - 1 ==> ids[..|ids| - 1][k] == ids[k];
  }

  lemma StaleInListed(data: Data, ids: seq<string>, clock: nat -> int, x: string)
    requires StaleIn(data, ids, clock, x)
    ensures x in ids
  {
  }

  lemma {:induction false} SweptMembers(data: Data, ids: seq<string>, clock: nat -> int, x: string)
    requires Distinct(ids)
    ensures x in Swept(data, ids, clock) <==> x in ids && !StaleIn(data, ids, clock, x)
  {
    if ids != [] {
      var n := |ids| - 1;
      SweptMembers(data, ids[..n], clock, x);
      StaleInSnoc(data, ids, clock, x);
      assert ids[n] !in ids[..n];
      assert x in ids <==> x in ids[..n] || x == ids[n] by { assert ids == ids[..n] + [ids[n]]; }
      if StaleIn(data, ids[..n], clock, x) { StaleInListed(data, ids[..n], clock, x); }
    }
  }

  lemma {:induction false} SweptDistinct(data: Data, ids: seq<string>, clock: nat -> int)
    requires Distinct(ids)
    ensures Distinct(Swept(data, ids, clock))
  {
    if ids != [] {
      var n := |ids| - 1;
      SweptDistinct(data, ids[..n], clock);
      SweptMembers(data, ids[..n], clock, ids[n]);
      assert ids[n] !in ids[..n];
    }
  }

  lemma KeptBookSnoc(data: Data, ids: seq<string>, id: string, clock: nat -> int)
    ensures Kept(BookFrom(data, ids + [id]), clock)
      == Kept(BookFrom(data, ids), clock) + if Live(Lookup(data, id), clock(|ids|)) then [Entry(id, Lookup(data, id))] else []
  {
    BookSnoc(data, ids, id);
    BookFromLength(data, ids);
    var book := BookFrom(data, ids);
    assert (book + [Entry(id, Lookup(data, id))])[..|book|] == book;
  }

  lemma SweptBookNext(a: Data, b: Data, ids: seq<string>, id: string, clock: nat -> int)
    requires RecordAt(a, id).Some? && (!Stale(a, id, clock(|ids|)) ==> Lookup(b, id) == Lookup(a, id))
    requires BookFrom(b, Swept(a, ids, clock)) == Kept(BookFrom(a, ids), clock)
    ensures BookFrom(b, Swept(a, ids + [id], clock)) == Kept(BookFrom(a, ids + [id]), clock)
  {
    KeptBookSnoc(a, ids, id, clock);
    assert (ids + [id])[..|ids|] == ids;
    var kept := Swept(a, ids, clock);
    if Stale(a, id, clock(|ids|)) {
      assert kept + [] == kept && Kept(BookFrom(a, ids), clock) + [] == Kept(BookFrom(a, ids), clock);
    } else {
      BookSnoc(b, kept, id);
    }
  }

  // The records that stay are those the book keeps.
  lemma {:induction false} SweptBook(a: Data, b: Data, ids: seq<string>, clock: nat -> int)
    requires forall k :: 0 <= k < |ids| ==> RecordAt(a, ids[k]).Some?
    requires forall k :: 0 <= k < |ids| && !Stale(a, ids[k], clock(k)) ==> Lookup(b, ids[k]) == Lookup(a, ids[k])
    ensures BookFrom(b, Swept(a, ids, clock)) == Kept(BookFrom(a, ids), clock)
  {
    if ids != [] {
      var n := |ids| - 1;
      var front, last := ids[..n], ids[n];
      assert ids == front + [last] && forall k :: 0 <= k < n ==> front[k] == ids[k];
      assert RecordAt(a, ids[n]).Some?;
      SweptBook(a, b, front, clock);
      SweptBookNext(a, b, front, last, clock);
    }
  }

  lemma {:induction false} BookFromLength(data: Data, ids: seq<string>)
    ensures |BookFrom(data, ids)| == |ids|
    ensures forall k :: 0 <= k < |ids| ==> BookFrom(data, ids)[k] == Entry(ids[k], Lookup(data, ids[k]))
  {
    if ids != [] { BookFromLength(data, ids[..|ids| - 1]); }
  }

  lemma SweptConsistent(a: Data, b: Data, clock: nat -> int)
    requires Consistent(a) && SweptFrom(a, b, MasterListOf(a), clock)
    ensures Consistent(b) && BookOf(b) == Kept(BookOf(a), clock)
  {
    var ids := MasterListOf(a);
    SweptDistinct(a, ids, clock);
    forall x: string ensures RecordAt(b, x).Some? <==> x in MasterListOf(b) {
      assert SweptRecord(a, b, ids, clock, x);
      SweptMembers(a, ids, clock, x);
    }
    forall k | 0 <= k < |ids| && !Stale(a, ids[k], clock(k)) ensures Lookup(b, ids[k]) == Lookup(a, ids[k]) {
      assert SweptRecord(a, b, ids, clock, ids[k]) && !StaleIn(a, ids, clock, ids[k]);
    }
    SweptBook(a, b, ids, clock);
  }

  // ---- One entry of the loop ----

  lemma {:induction false} RemoveIdAbsent(ids: seq<string>, id: string)
    requires id !in ids
    ensures RemoveId(ids, id) == ids
  {
    if ids != [] {
      var n := |ids| - 1;
      RemoveIdAbsent(ids[..n], id);
      assert ids == ids[..n] + [ids[n]];
    }
  }

  lemma {:induction false} RemoveIdConcat(a: seq<string>, b: seq<string>, id: string)
    ensures RemoveId(a + b, id) == RemoveId(a, id) + RemoveId(b, id)
  {
    if b == [] {
      assert a + b == a;
    } else {
      RemoveIdConcat(a, b[..|b| - 1], id);
      assert (a + b)[..|a + b| - 1] == a + b[..|b| - 1];
    }
  }

  lemma RemoveIdOnly(id: string)
    ensures RemoveId([id], id) == []
  {
    assert [id][..0] == [];
  }

  lemma RemoveFromMiddle(a: seq<string>, id: string, b: seq<string>)
    requires id !in a && id !in b
    ensures RemoveId(a + [id] + b, id) == a + b
  {
    RemoveIdConcat(a + [id], b, id);
    RemoveIdConcat(a, [id], id);
    RemoveIdAbsent(a, id);
    RemoveIdAbsent(b, id);
    RemoveIdOnly(id);
    assert a + [] == a;
  }

  // Halfway through the list.
  ghost predicate SweptTo(a: Data, b: Data, ids: seq<string>, clock: nat -> int, i: nat)
    requires i <= |ids|
  {
    && MasterListOf(b) == Swept(a, ids[..i], clock) + ids[i..]
    && (forall x: string :: SweptRecord(a, b, ids[..i], clock, x))
    && OnlySessionKeysDiffer(a, b)
  }

  lemma StaleSoFar(data: Data, ids: seq<string>, clock: nat -> int, i: nat, x: string)
    requires i < |ids|
    ensures StaleIn(data, ids[..i + 1], clock, x) <==> StaleIn(data, ids[..i], clock, x) || (x == ids[i] && Stale(data, x, clock(i)))
  {
    var more := ids[..i + 1];
    assert more[i] == ids[i] && forall k :: 0 <= k < i ==> more[k] == ids[..i][k];
  }

  lemma NotReadBefore(a: Data, ids: seq<string>, clock: nat -> int, i: nat)
    requires Distinct(ids) && i < |ids|
    ensures ids[i] !in Swept(a, ids[..i], clock) && ids[i] !in ids[i + 1..] && !StaleIn(a, ids[..i], clock, ids[i])
  {
    SweptMembers(a, ids[..i], clock, ids[i]);
    assert ids[i] !in ids[..i];
  }

  lemma SweptListNext(a: Data, ids: seq<string>, clock: nat -> int, i: nat)
    requires Distinct(ids) && i < |ids|
    ensures var now := Swept(a, ids[..i], clock) + ids[i..];
      (if Stale(a, ids[i], clock(i)) then RemoveId(now, ids[i]) else now) == Swept(a, ids[..i + 1], clock) + ids[i + 1..]
  {
    NotReadBefore(a, ids, clock, i);
    var before := Swept(a, ids[..i], clock);
    assert ids[..i + 1][..i] == ids[..i];
    assert before + ids[i..] == before + [ids[i]] + ids[i + 1..];
    RemoveFromMiddle(before, ids[i], ids[i + 1..]);
    assert before + [] == before;
  }

  // What the read of entry i makes of the store.
  ghost predicate ReadAt(b: Data, b': Data, id: string, now: int) {
    if Stale(b, id, now) then Becomes(b, b', id, None, RemoveId(MasterListOf(b), id)) else b' == b
  }

  lemma ReadRecord(b: Data, b': Data, id: string, now: int, x: string)
    requires ReadAt(b, b', id, now)
    ensures RecordAt(b', x) == if x == id && Stale(b, id, now) then None else RecordAt(b, x)
  {
  }

  lemma SweptRecordNext(a: Data, b: Data, b': Data, ids: seq<string>, clock: nat -> int, i: nat, x: string)
    requires i < |ids| && (x == ids[i] ==> !StaleIn(a, ids[..i], clock, x))
    requires SweptRecord(a, b, ids[..i], clock, x) && ReadAt(b, b', ids[i], clock(i))
    ensures SweptRecord(a, b', ids[..i + 1], clock, x)
  {
    StaleSoFar(a, ids, clock, i, x);
    ReadRecord(b, b', ids[i], clock(i), x);
  }

  lemma DifferTrans(a: Data, b: Data, c: Data)
    requires OnlySessionKeysDiffer(a, b) && OnlySessionKeysDiffer(b, c)
    ensures OnlySessionKeysDiffer(a, c)
  {
  }

  lemma SweptNext(a: Data, b: Data, b': Data, ids: seq<string>, clock: nat -> int, i: nat)
    requires Distinct(ids) && i < |ids| && SweptTo(a, b, ids, clock, i) && ReadAt(b, b', ids[i], clock(i))
    ensures RecordAt(b, ids[i]) == RecordAt(a, ids[i])
    ensures SweptTo(a, b', ids, clock, i + 1)
  {
    NotReadBefore(a, ids, clock, i);
    assert SweptRecord(a, b, ids[..i], clock, ids[i]);
    SweptListNext(a, ids, clock, i);
    var done := ids[..i + 1];
    forall x: string ensures SweptRecord(a, b', done, clock, x) {
      assert SweptRecord(a, b, ids[..i], clock, x);
      SweptRecordNext(a, b, b', ids, clock, i, x);
    }
    if Stale(b, ids[i], clock(i)) { DifferTrans(a, b, b'); }
  }

  lemma ListedNext(book: Book, clock: nat -> int, k: nat)
    requires k < |book|
    ensures Listed(book[..k + 1], clock)
            == Listed(book[..k], clock) + if Live(book[k].value, clock(k)) then [Deserialize(book[k].value.session)] else []
  {
    assert book[..k + 1][..k] == book[..k];
  }

  // The loop of list() before its i-th read: the list is purged so far and its live sessions are reported.
  ghost predicate Reading(a: Data, b: Data, clock: nat -> int, i: nat, sessions: seq<Session>)
    requires i <= |MasterListOf(a)|
  {
    && OnlySessionKeysDiffer(a, b)
    && (Distinct(MasterListOf(a)) ==>
          && SweptTo(a, b, MasterListOf(a), clock, i)
          && i <= |BookOf(a)| && sessions == Listed(BookOf(a)[..i], clock))
  }

  lemma ReadingStart(a: Data, clock: nat -> int)
    ensures Reading(a, a, clock, 0, [])
  {
    var ids := MasterListOf(a);
    assert ids[..0] == [] && ids[0..] == ids && BookOf(a)[..0] == [];
  }

  lemma ReadingNext(a: Data, b: Data, b': Data, clock: nat -> int, i: nat, sessions: seq<Session>, session: Option<Session>)
    requires i < |MasterListOf(a)| && Reading(a, b, clock, i, sessions)
    requires ReadAt(b, b', MasterListOf(a)[i], clock(i))
    requires var found := RecordAt(b, MasterListOf(a)[i]);
      session == if found.Some? && Live(found.value, clock(i)) then Some(Deserialize(found.value.session)) else None
    ensures Reading(a, b', clock, i + 1, if session.Some? then sessions + [session.value] else sessions)
  {
    var ids := MasterListOf(a);
    if Stale(b, ids[i], clock(i)) { DifferTrans(a, b, b'); }
    if Distinct(ids) {
      SweptNext(a, b, b', ids, clock, i);
      BookFromLength(a, ids);
      ListedNext(BookOf(a), clock, i);
      assert sessions + [] == sessions;
    }
  }

  lemma ReadingDone(a: Data, b: Data, clock: nat -> int, sessions: seq<Session>)
    requires Reading(a, b, clock, |MasterListOf(a)|, sessions)
    ensures OnlySessionKeysDiffer(a, b)
    ensures Distinct(MasterListOf(a)) ==>
      sessions == Listed(BookOf(a), clock) && SweptFrom(a, b, MasterListOf(a), clock)
    ensures Consistent(a) ==> Consistent(b) && BookOf(b) == Kept(BookOf(a), clock)
  {
    var ids := MasterListOf(a);
    BookFromLength(a, ids);
    assert BookOf(a)[..|ids|] == BookOf(a) && ids[..|ids|] == ids && ids[|ids|..] == [];
    if Consistent(a) { SweptConsistent(a, b, clock); }
  }

  class SessionStore {
    const kvstore: KVStore

    constructor (kvstore: KVStore)
      ensures this.kvstore == kvstore
    {
      this.kvstore := kvstore;
    }

    /** Opens a store and reads every listed session once, which drops the stale ones. */
    static method Create(kvstore: KVStore, clock: nat -> int) returns (store: SessionStore)
      modifies kvstore
      ensures store.kvstore == kvstore && OnlySessionKeysDiffer(old(kvstore.data), kvstore.data)
      ensures Distinct(old(MasterListOf(kvstore.data))) ==>
        SweptFrom(old(kvstore.data), kvstore.data, old(MasterListOf(kvstore.data)), clock)
      ensures old(Consistent(kvstore.data)) ==>
        Consistent(kvstore.data) && BookOf(kvstore.data) == Kept(BookOf(old(kvstore.data)), clock)
    {
      store := new SessionStore(kvstore);
      store.GarbageCollect(clock);
    }

    /** Saves a session unless it has expired (or has no expiry at all). */
    method Set(session: Session, now: int) returns (ok: bool)
      modifies kvstore
      ensures ok <==> session.expiresAt.PosInfinity? || (session.expiresAt.At? && session.expiresAt.ms >= now)
      ensures if ok then Becomes(old(kvstore.data), kvstore.data, session.id, Some(Record(Serialize(session))),
                                 AddId(old(MasterListOf(kvstore.data)), session.id))
              else kvstore.data == old(kvstore.data)
      ensures old(Consistent(kvstore.data)) ==>
        Consistent(kvstore.data) && BookOf(kvstore.data) == StepBook(BookOf(old(kvstore.data)), Op.Set(session, now))
    {
      if Unsavable(session.expiresAt, now) { return false; }
      var v := Record(Serialize(session));
      WriteRecord(kvstore.data, session.id, v);
      kvstore.Set(SessionKey(session.id), v);
      AddToMasterList(session.id);
      if old(Consistent(kvstore.data)) { AddedToBook(old(kvstore.data), kvstore.data, session.id, v); }
      return true;
    }

    /** Answers with the session if it is readable and unexpired; otherwise it is gone afterwards. */
    method Get(id: string, now: int) returns (session: Option<Session>)
      modifies kvstore
      ensures var found := old(RecordAt(kvstore.data, id));
        session == if found.Some? && Live(found.value, now) then Some(Deserialize(found.value.session)) else None
      ensures if old(Stale(kvstore.data, id, now))
              then Becomes(old(kvstore.data), kvstore.data, id, None, RemoveId(old(MasterListOf(kvstore.data)), id))
              else kvstore.data == old(kvstore.data)
      ensures old(Consistent(kvstore.data)) ==>
        && Consistent(kvstore.data) && session == Answer(BookOf(old(kvstore.data)), id, now)
        && BookOf(kvstore.data) == Read(BookOf(old(kvstore.data)), id, now)
    {
      BookFromFind(kvstore.data, MasterListOf(kvstore.data), id);
      var raw := kvstore.Get(SessionKey(id));
      if raw.None? { return None; }
      if !raw.value.Record? {
        Delete(id);
        return None;
      }
      var data := raw.value.session;
      if data.expiresAt.None? || !(data.expiresAt.value >= now) {
        Delete(id);
        return None;
      }
      return Some(Deserialize(data));
    }

    /** Exactly the listed sessions that are usable when read, in the list's order; the stale are gone. */
    method List(clock: nat -> int) returns (sessions: seq<Session>)
      modifies kvstore
      ensures OnlySessionKeysDiffer(old(kvstore.data), kvstore.data)
      ensures Distinct(old(MasterListOf(kvstore.data))) ==>
        && sessions == Listed(old(BookOf(kvstore.data)), clock)
        && SweptFrom(old(kvstore.data), kvstore.data, old(MasterListOf(kvstore.data)), clock)
      ensures old(Consistent(kvstore.data)) ==>
        Consistent(kvstore.data) && BookOf(kvstore.data) == Kept(BookOf(old(kvstore.data)), clock)
    {
      var ids := GetMasterList();
      ghost var before := kvstore.data;
      sessions := [];
      ReadingStart(before, clock);
      for i := 0 to |ids|
        invariant Reading(before, kvstore.data, clock, i, sessions)
      {
        ghost var was, reported := kvstore.data, sessions;
        var session := Get(ids[i], clock(i));
        if session.Some? { sessions := sessions + [session.value]; }
        ReadingNext(before, was, kvstore.data, clock, i, reported, session);
      }
      ReadingDone(before, kvstore.data, clock, sessions);
    }

    /** Removes the record and then the id. */
    method Delete(id: string)
      modifies kvstore
      ensures Becomes(old(kvstore.data), kvstore.data, id, None, RemoveId(old(MasterListOf(kvstore.data)), id))
      ensures old(Consistent(kvstore.data)) ==>
        Consistent(kvstore.data) && BookOf(kvstore.data) == Remove(BookOf(old(kvstore.data)), id)
    {
      WriteRecord(kvstore.data, id, Unreadable);
      kvstore.Delete(SessionKey(id));
      RemoveFromMasterList(id);
      if old(Consistent(kvstore.data)) { RemovedFromBook(old(kvstore.data), kvstore.data, id); }
    }

    method GarbageCollect(clock: nat -> int)
      modifies kvstore
      ensures OnlySessionKeysDiffer(old(kvstore.data), kvstore.data)
      ensures Distinct(old(MasterListOf(kvstore.data))) ==>
        SweptFrom(old(kvstore.data), kvstore.data, old(MasterListOf(kvstore.data)), clock)
      ensures old(Consistent(kvstore.data)) ==>
        Consistent(kvstore.data) && BookOf(kvstore.data) == Kept(BookOf(old(kvstore.data)), clock)
    {
      var _ := List(clock);
    }

    method GetMasterList() returns (ids: seq<string>)
      ensures ids == MasterListOf(kvstore.data)
    {
      var raw := kvstore.Get(MASTER_LIST_KEY);
      ids := if raw.Some? && raw.value.Ids? then raw.value.ids else [];
    }

    // Both of these hold the mutex in the source.
    method AddToMasterList(id: string)
      modifies kvstore
      ensures MasterListOf(kvstore.data) == AddId(MasterListOf(old(kvstore.data)), id)
      ensures forall x: string :: RecordAt(kvstore.data, x) == RecordAt(old(kvstore.data), x)
      ensures OnlySessionKeysDiffer(old(kvstore.data), kvstore.data)
    {
      var list := GetMasterList();
      if id !in list {
        WriteList(kvstore.data, list + [id]);
        kvstore.Set(MASTER_LIST_KEY, Ids(list + [id]));
      }
    }

    method RemoveFromMasterList(id: string)
      modifies kvstore
      ensures MasterListOf(kvstore.data) == RemoveId(MasterListOf(old(kvstore.data)), id)
      ensures forall x: string :: RecordAt(kvstore.data, x) == RecordAt(old(kvstore.data), x)
      ensures OnlySessionKeysDiffer(old(kvstore.data), kvstore.data)
    {
      var list := GetMasterList();
      WriteList(kvstore.data, RemoveId(list, id));
      kvstore.Set(MASTER_LIST_KEY, Ids(RemoveId(list, id)));
    }
  }
}
