// What a session store means: an insertion-ordered map whose entries vanish when they are read
// after their expiry (packages/core/src/session-store/index.ts).

module SessionBook {
  import opened Wrappers
  import opened KeyValue

  // A JavaScript number used as a timestamp.
  datatype Time = NaN | NegInfinity | PosInfinity | At(ms: int)

  datatype Session = Session(
    id: string, channel: string, publicKey: Bytes, privateKey: Bytes, theirPublicKey: Bytes, expiresAt: Time)

  // What Number.isNaN(t) || t < now says.
  predicate Unsavable(t: Time, now: int) { t.NaN? || t.NegInfinity? || (t.At? && t.ms < now) }

  // JSON.stringify: only finite numbers survive.
  function Serialize(s: Session): StoredSession {
    StoredSession(s.id, s.channel, s.publicKey, s.privateKey, s.theirPublicKey,
                  if s.expiresAt.At? then Some(s.expiresAt.ms) else None)
  }

  function Deserialize(r: StoredSession): Session
    requires r.expiresAt.Some?
  {
    Session(r.id, r.channel, r.publicKey, r.privateKey, r.theirPublicKey, At(r.expiresAt.value))
  }

  // The record can be read and has not expired.
  predicate Live(v: Value, now: int) {
    v.Record? && v.session.expiresAt.Some? && v.session.expiresAt.value >= now
  }

  // ---- The insertion-ordered map ----

  datatype Entry = Entry(id: string, value: Value)

  type Book = seq<Entry>

  function IdsOf(book: Book): seq<string> {
    if book == [] then [] else IdsOf(book[..|book| - 1]) + [book[|book| - 1].id]
  }

  predicate Distinct(ids: seq<string>) { forall i, j :: 0 <= i < j < |ids| ==> ids[i] != ids[j] }

  function AddId(ids: seq<string>, id: string): seq<string> { if id in ids then ids else ids + [id] }

  function RemoveId(ids: seq<string>, id: string): seq<string> {
    if ids == [] then []
    else
      var n := |ids| - 1;
      RemoveId(ids[..n], id) + if ids[n] != id then [ids[n]] else []
  }

  function Find(book: Book, id: string): Option<Value> {
    if book == [] then None
    else if book[|book| - 1].id == id then Some(book[|book| - 1].value)
    else Find(book[..|book| - 1], id)
  }

  function Replace(book: Book, id: string, v: Value): Book {
    if book == [] then []
    else
      var n := |book| - 1;
      Replace(book[..n], id, v) + [if book[n].id == id then Entry(id, v) else book[n]]
  }

  // A new id goes to the end; a known one keeps its place.
  function Put(book: Book, id: string, v: Value): Book {
    if id in IdsOf(book) then Replace(book, id, v) else book + [Entry(id, v)]
  }

  function Remove(book: Book, id: string): Book {
    if book == [] then []
    else
      var n := |book| - 1;
      Remove(book[..n], id) + if book[n].id != id then [book[n]] else []
  }

  // Reading an entry that cannot be used removes it.
  function Read(book: Book, id: string, now: int): Book {
    var v := Find(book, id);
    if v.Some? && !Live(v.value, now) then Remove(book, id) else book
  }

  function Answer(book: Book, id: string, now: int): Option<Session> {
    var v := Find(book, id);
    if v.Some? && Live(v.value, now) then Some(Deserialize(v.value.session)) else None
  }

  // ---- Facts about the map ----

  lemma {:induction false} AddIdMembers(ids: seq<string>, id: string)
    requires Distinct(ids)
    ensures Distinct(AddId(ids, id))
    ensures forall x :: x in AddId(ids, id) <==> x in ids || x == id
  {
  }

  lemma {:induction false} RemoveIdMembers(ids: seq<string>, id: string)
    requires Distinct(ids)
    ensures Distinct(RemoveId(ids, id))
    ensures forall x :: x in RemoveId(ids, id) <==> x in ids && x != id
  {
    if ids != [] {
      var n := |ids| - 1;
      RemoveIdMembers(ids[..n], id);
      assert ids == ids[..n] + [ids[n]];
      assert ids[n] !in ids[..n];
    }
  }

  lemma {:induction false} FindMember(book: Book, id: string)
    ensures Find(book, id).Some? <==> id in IdsOf(book)
  {
    if book != [] { FindMember(book[..|book| - 1], id); }
  }

  lemma {:induction false} IdsLength(book: Book)
    ensures |IdsOf(book)| == |book|
    ensures forall i :: 0 <= i < |book| ==> IdsOf(book)[i] == book[i].id
  {
    if book != [] { IdsLength(book[..|book| - 1]); }
  }

  lemma {:induction false} IdsConcat(a: Book, b: Book)
    ensures IdsOf(a + b) == IdsOf(a) + IdsOf(b)
  {
    if b == [] {
      assert a + b == a;
    } else {
      IdsConcat(a, b[..|b| - 1]);
      assert (a + b)[..|a + b| - 1] == a + b[..|b| - 1];
    }
  }

  lemma {:induction false} FindRemove(book: Book, id: string, x: string)
    ensures Find(Remove(book, id), x) == if x == id then None else Find(book, x)
  {
    if book != [] {
      var n := |book| - 1;
      FindRemove(book[..n], id, x);
      if book[n].id != id {
        assert Remove(book, id)[..|Remove(book, id)| - 1] == Remove(book[..n], id);
      } else {
        assert Remove(book, id) == Remove(book[..n], id);
      }
    }
  }

  lemma {:induction false} FindReplace(book: Book, id: string, v: Value, x: string)
    ensures Find(Replace(book, id, v), x) == if x == id && Find(book, id).Some? then Some(v) else Find(book, x)
  {
    if book != [] {
      var n := |book| - 1;
      FindReplace(book[..n], id, v, x);
      assert Replace(book, id, v)[..|Replace(book, id, v)| - 1] == Replace(book[..n], id, v);
    }
  }

  lemma FindPut(book: Book, id: string, v: Value, x: string)
    ensures Find(Put(book, id, v), x) == if x == id then Some(v) else Find(book, x)
  {
    FindMember(book, id);
    if id in IdsOf(book) {
      FindReplace(book, id, v, x);
    } else {
      assert (book + [Entry(id, v)])[..|book|] == book;
    }
  }

  // ---- Listing ----

  // The entries still there, and the sessions returned, when entry i is read at clock(i).
  function Kept(book: Book, clock: nat -> int): Book {
    if book == [] then []
    else
      var n := |book| - 1;
      Kept(book[..n], clock) + if Live(book[n].value, clock(n)) then [book[n]] else []
  }

  function Listed(book: Book, clock: nat -> int): seq<Session> {
    if book == [] then []
    else
      var n := |book| - 1;
      Listed(book[..n], clock) + if Live(book[n].value, clock(n)) then [Deserialize(book[n].value.session)] else []
  }

  lemma {:induction false} RemoveAbsent(book: Book, id: string)
    requires id !in IdsOf(book)
    ensures Remove(book, id) == book
  {
    if book != [] {
      var n := |book| - 1;
      RemoveAbsent(book[..n], id);
      assert book == book[..n] + [book[n]];
    }
  }

  lemma {:induction false} RemoveConcat(a: Book, b: Book, id: string)
    ensures Remove(a + b, id) == Remove(a, id) + Remove(b, id)
  {
    if b == [] {
      assert a + b == a;
    } else {
      RemoveConcat(a, b[..|b| - 1], id);
      assert (a + b)[..|a + b| - 1] == a + b[..|b| - 1];
    }
  }

  lemma {:induction false} FindConcat(a: Book, b: Book, id: string)
    ensures Find(a + b, id) == if Find(b, id).Some? then Find(b, id) else Find(a, id)
  {
    if b == [] {
      assert a + b == a;
    } else {
      FindConcat(a, b[..|b| - 1], id);
      assert (a + b)[..|a + b| - 1] == a + b[..|b| - 1];
    }
  }

  lemma {:induction false} KeptIds(book: Book, clock: nat -> int, id: string)
    requires id in IdsOf(Kept(book, clock))
    ensures id in IdsOf(book)
  {
    if book != [] {
      var n := |book| - 1;
      IdsConcat(Kept(book[..n], clock), if Live(book[n].value, clock(n)) then [book[n]] else []);
      assert [book[n]][..0] == [];
      if id in IdsOf(Kept(book[..n], clock)) { KeptIds(book[..n], clock, id); }
    }
  }

  lemma OtherIds(book: Book, k: nat)
    requires Distinct(IdsOf(book)) && k < |book|
    ensures book[k].id !in IdsOf(book[..k]) && book[k].id !in IdsOf(book[k + 1..])
  {
    var before, after := IdsOf(book[..k]), IdsOf(book[k + 1..]);
    IdsLength(book);
    IdsLength(book[..k]);
    IdsLength(book[k + 1..]);
    var ids := IdsOf(book);
    forall j | 0 <= j < |before| ensures before[j] != ids[k] { assert before[j] == ids[j]; }
    forall j | 0 <= j < |after| ensures after[j] != ids[k] { assert after[j] == ids[k + 1 + j]; }
  }

  lemma KeptNext(book: Book, clock: nat -> int, k: nat)
    requires k < |book|
    ensures Kept(book[..k + 1], clock)
            == Kept(book[..k], clock) + if Live(book[k].value, clock(k)) then [book[k]] else []
  {
    assert book[..k + 1][..k] == book[..k];
  }

  lemma Regroup(kept: Book, book: Book, k: nat)
    requires k < |book|
    ensures kept + book[k..] == kept + [book[k]] + book[k + 1..]
  {
    assert book[k..] == [book[k]] + book[k + 1..];
  }

  /** Reading the k-th entry after the first k have been read. */
  lemma ReadNext(book: Book, clock: nat -> int, k: nat)
    requires Distinct(IdsOf(book)) && k < |book|
    ensures var now := Kept(book[..k], clock) + book[k..];
      && Read(now, book[k].id, clock(k)) == Kept(book[..k + 1], clock) + book[k + 1..]
      && Answer(now, book[k].id, clock(k))
         == (if Live(book[k].value, clock(k)) then Some(Deserialize(book[k].value.session)) else None)
  {
    var kept := Kept(book[..k], clock);
    OtherIds(book, k);
    if book[k].id in IdsOf(kept) { KeptIds(book[..k], clock, book[k].id); }
    ReadInMiddle(kept, book[k], book[k + 1..], clock(k));
    Regroup(kept, book, k);
    KeptNext(book, clock, k);
  }

  lemma ReadInMiddle(kept: Book, e: Entry, rest: Book, now: int)
    requires e.id !in IdsOf(kept) && e.id !in IdsOf(rest)
    ensures Find(kept + [e] + rest, e.id) == Some(e.value)
    ensures Read(kept + [e] + rest, e.id, now) == kept + (if Live(e.value, now) then [e] else []) + rest
  {
    FindMember(rest, e.id);
    FindConcat(kept + [e], rest, e.id);
    assert (kept + [e])[..|kept|] == kept;
    RemoveConcat(kept + [e], rest, e.id);
    RemoveConcat(kept, [e], e.id);
    RemoveAbsent(kept, e.id);
    RemoveAbsent(rest, e.id);
    assert [e][..0] == [];
    assert kept + [] == kept;
  }

  function Always(now: int): nat -> int { _ => now }

  // ---- Against a map that never forgets, with the moments of insertion ----

  // Open is what create() does to the store it opens.
  datatype Op = Set(s: Session, now: int) | Get(id: string, now: int) | Delete(id: string) | List(now: int) | Open(now: int)

  // What the caller sees.
  datatype Result = Saved(ok: bool) | Got(session: Option<Session>) | Done | All(sessions: seq<Session>)

  predicate Timed(op: Op, from: int) { op.Delete? || op.now >= from }

  function Clock(op: Op, from: int): int { if op.Delete? then from else op.now }

  function StepBook(book: Book, op: Op): Book {
    match op
    case Set(s, now) => if Unsavable(s.expiresAt, now) then book else Put(book, s.id, Record(Serialize(s)))
    case Get(id, now) => Read(book, id, now)
    case Delete(id) => Remove(book, id)
    case List(now) => Kept(book, Always(now))
    case Open(now) => Kept(book, Always(now))
  }

  function ResultBook(book: Book, op: Op): Result {
    match op
    case Set(s, now) => Saved(!Unsavable(s.expiresAt, now))
    case Get(id, now) => Got(Answer(book, id, now))
    case Delete(id) => Done
    case List(now) => All(Listed(book, Always(now)))
    case Open(_) => Done
  }

  lemma PutAnswers(book: Book, s: Session, readAt: int)
    ensures Answer(Put(book, s.id, Record(Serialize(s))), s.id, readAt)
            == if s.expiresAt.At? && s.expiresAt.ms >= readAt then Some(s) else None
  {
    FindPut(book, s.id, Record(Serialize(s)), s.id);
  }

  /** set() saves exactly the sessions whose expiry is infinite or not past; a refused one leaves the book
      as it was. What was saved comes back unchanged until it has expired, one with an infinite expiry
      never does; every other id reads as before, and a new id goes to the end of the list. */
  lemma SetThenGet(book: Book, s: Session, savedAt: int, readAt: int, other: string)
    ensures var after := StepBook(book, Op.Set(s, savedAt));
      var saved := s.expiresAt.PosInfinity? || (s.expiresAt.At? && s.expiresAt.ms >= savedAt);
      && ResultBook(book, Op.Set(s, savedAt)) == Saved(saved)
      && (!saved ==> after == book)
      && (saved ==> ResultBook(after, Op.Get(s.id, readAt))
                    == Got(if s.expiresAt.At? && s.expiresAt.ms >= readAt then Some(s) else None))
      && (saved ==> IdsOf(after) == if s.id in IdsOf(book) then IdsOf(book) else IdsOf(book) + [s.id])
      && (other != s.id ==> ResultBook(after, Op.Get(other, readAt)) == ResultBook(book, Op.Get(other, readAt)))
  {
    var v := Record(Serialize(s));
    PutIds(book, s.id, v);
    PutAnswers(book, s, readAt);
    FindPut(book, s.id, v, other);
  }

  // The reference: values stay until deleted or overwritten, and answers look at the clock alone.
  // `since` says when an id was inserted: by the set() that found it absent, deleted, or noticed dead.
  // `noticed` are the ids that a read has found dead since they were set.
  datatype Reference = Reference(values: map<string, Value>, since: map<string, nat>, noticed: set<string>, next: nat)

  const NO_SESSIONS := Reference(map[], map[], {}, 0)

  function Dead(ref: Reference, now: int): set<string> { set id | id in ref.values && !Live(ref.values[id], now) }

  function StepRef(ref: Reference, op: Op): Reference {
    match op
    case Set(s, now) =>
      if Unsavable(s.expiresAt, now) then ref
      else
        var known := s.id in ref.values && s.id !in ref.noticed;
        Reference(ref.values[s.id := Record(Serialize(s))], if known then ref.since else ref.since[s.id := ref.next],
                  ref.noticed - {s.id}, ref.next + 1)
    case Get(id, now) => ref.(noticed := ref.noticed + Dead(ref, now) * {id})
    case Delete(id) => ref.(values := ref.values - {id}, noticed := ref.noticed - {id})
    case List(now) => ref.(noticed := ref.noticed + Dead(ref, now))
    case Open(now) => ref.(noticed := ref.noticed + Dead(ref, now))
  }

  // Every id has its moment, in increasing order.
  predicate Ascending(ids: seq<string>, since: map<string, nat>) {
    && (forall i :: 0 <= i < |ids| ==> ids[i] in since)
    && (forall i, j :: 0 <= i < j < |ids| ==> since[ids[i]] < since[ids[j]])
  }

  // The live values, all of them, in the order of their insertion.
  ghost predicate InInsertionOrder(ref: Reference, now: int, sessions: seq<Session>, ids: seq<string>) {
    && |ids| == |sessions| && Ascending(ids, ref.since)
    && (forall i :: 0 <= i < |ids| ==>
          ids[i] in ref.values && Live(ref.values[ids[i]], now) && sessions[i] == Deserialize(ref.values[ids[i]].session))
    && (forall id :: id in ref.values && Live(ref.values[id], now) ==> id in ids)
  }

  ghost predicate Answers(ref: Reference, op: Op, result: Result) {
    match op
    case Set(s, now) => result == Saved(s.expiresAt.PosInfinity? || (s.expiresAt.At? && s.expiresAt.ms >= now))
    case Get(id, now) =>
      result == Got(if id in ref.values && Live(ref.values[id], now) then Some(Deserialize(ref.values[id].session)) else None)
    case Delete(id) => result == Done
    case List(now) => result.All? && exists ids :: InInsertionOrder(ref, now, result.sessions, ids)
    case Open(_) => result == Done
  }

  ghost predicate SameEntries(book: Book, ref: Reference) {
    forall id: string ::
      Find(book, id) == if id in ref.values && id !in ref.noticed then Some(ref.values[id]) else None
  }

  // The book holds what is not noticed dead, in the order of insertion.
  ghost predicate Agree(book: Book, ref: Reference, now: int) {
    && Distinct(IdsOf(book)) && SameEntries(book, ref)
    && (forall id :: id in ref.noticed ==> id in ref.values && !Live(ref.values[id], now))
    && Ascending(IdsOf(book), ref.since)
    && (forall id :: id in ref.since ==> ref.since[id] < ref.next)
  }

  lemma FindSnoc(book: Book, e: Entry, id: string)
    ensures Find(book + [e], id) == if e.id == id then Some(e.value) else Find(book, id)
  {
    assert (book + [e])[..|book|] == book;
  }

  lemma DistinctFront(ids: seq<string>, id: string)
    requires Distinct(ids + [id])
    ensures Distinct(ids) && id !in ids
  {
    var all := ids + [id];
    assert all[|ids|] == id && forall k :: 0 <= k < |ids| ==> all[k] == ids[k];
  }

  lemma {:induction false} KeptFind(book: Book, clock: nat -> int, now: int, id: string)
    requires Distinct(IdsOf(book)) && forall n: nat :: clock(n) == now
    ensures Find(Kept(book, clock), id)
            == if Find(book, id).Some? && Live(Find(book, id).value, now) then Find(book, id) else None
  {
    if book != [] {
      var n := |book| - 1;
      DistinctFront(IdsOf(book[..n]), book[n].id);
      KeptFind(book[..n], clock, now, id);
      FindMember(book[..n], book[n].id);
      if Live(book[n].value, now) {
        FindSnoc(Kept(book[..n], clock), book[n], id);
      } else {
        assert Kept(book, clock) == Kept(book[..n], clock);
      }
    }
  }

  lemma {:induction false} KeptDistinct(book: Book, clock: nat -> int)
    requires Distinct(IdsOf(book))
    ensures Distinct(IdsOf(Kept(book, clock)))
  {
    if book != [] {
      var n := |book| - 1;
      IdsLength(book);
      IdsLength(book[..n]);
      assert forall i :: 0 <= i < n ==> IdsOf(book[..n])[i] == IdsOf(book)[i];
      KeptDistinct(book[..n], clock);
      IdsConcat(Kept(book[..n], clock), if Live(book[n].value, clock(n)) then [book[n]] else []);
      assert [book[n]][..0] == [];
      if book[n].id in IdsOf(Kept(book[..n], clock)) { KeptIds(book[..n], clock, book[n].id); }
    }
  }

  lemma {:induction false} RemoveIds(book: Book, id: string)
    ensures IdsOf(Remove(book, id)) == RemoveId(IdsOf(book), id)
  {
    if book != [] {
      var n := |book| - 1;
      RemoveIds(book[..n], id);
      IdsConcat(Remove(book[..n], id), if book[n].id != id then [book[n]] else []);
      assert [book[n]][..0] == [];
      assert IdsOf(book)[..n] == IdsOf(book[..n]) by { IdsLength(book[..n]); }
      IdsLength(book);
    }
  }

  lemma {:induction false} ReplaceIds(book: Book, id: string, v: Value)
    ensures IdsOf(Replace(book, id, v)) == IdsOf(book)
  {
    if book != [] {
      var n := |book| - 1;
      ReplaceIds(book[..n], id, v);
      assert Replace(book, id, v)[..|Replace(book, id, v)| - 1] == Replace(book[..n], id, v);
    }
  }

  lemma PutIds(book: Book, id: string, v: Value)
    ensures IdsOf(Put(book, id, v)) == AddId(IdsOf(book), id)
  {
    ReplaceIds(book, id, v);
    assert (book + [Entry(id, v)])[..|book|] == book;
  }

  lemma {:induction false} RemoveAscending(ids: seq<string>, id: string, since: map<string, nat>)
    requires Ascending(ids, since) && Distinct(ids)
    ensures Ascending(RemoveId(ids, id), since)
  {
    if ids != [] {
      var n := |ids| - 1;
      RemoveAscending(ids[..n], id, since);
      RemoveIdMembers(ids[..n], id);
      var kept := RemoveId(ids[..n], id);
      forall i | 0 <= i < |kept| ensures since[kept[i]] < since[ids[n]] {
        assert kept[i] in ids[..n];
      }
    }
  }

  lemma KeptSnoc(book: Book, clock: nat -> int)
    requires book != []
    ensures var n := |book| - 1;
      IdsOf(Kept(book, clock)) == IdsOf(Kept(book[..n], clock)) + if Live(book[n].value, clock(n)) then [book[n].id] else []
  {
    var n := |book| - 1;
    IdsConcat(Kept(book[..n], clock), if Live(book[n].value, clock(n)) then [book[n]] else []);
    assert [book[n]][..0] == [];
  }

  lemma AscendingSnoc(ids: seq<string>, id: string, since: map<string, nat>)
    ensures Ascending(ids + [id], since)
      <==> Ascending(ids, since) && id in since && forall k :: 0 <= k < |ids| ==> since[ids[k]] < since[id]
  {
    var all := ids + [id];
    assert all[|ids|] == id && forall k :: 0 <= k < |ids| ==> all[k] == ids[k];
  }

  lemma {:induction false} KeptAscending(book: Book, clock: nat -> int, since: map<string, nat>)
    requires Ascending(IdsOf(book), since)
    ensures Ascending(IdsOf(Kept(book, clock)), since)
  {
    if book != [] {
      var n := |book| - 1;
      var before, front, last := IdsOf(book[..n]), IdsOf(Kept(book[..n], clock)), book[n].id;
      assert IdsOf(book) == before + [last];
      AscendingSnoc(before, last, since);
      KeptAscending(book[..n], clock, since);
      KeptSnoc(book, clock);
      forall i | 0 <= i < |front| ensures since[front[i]] < since[last] {
        KeptIds(book[..n], clock, front[i]);
        var k :| 0 <= k < |before| && before[k] == front[i];
      }
      AscendingSnoc(front, last, since);
      assert front + [] == front;
    }
  }

  lemma {:induction false} ListedIsKept(book: Book, clock: nat -> int)
    ensures |Listed(book, clock)| == |Kept(book, clock)|
    ensures forall i :: 0 <= i < |Kept(book, clock)| ==>
      Kept(book, clock)[i].value.Record? && Kept(book, clock)[i].value.session.expiresAt.Some?
      && Listed(book, clock)[i] == Deserialize(Kept(book, clock)[i].value.session)
  {
    if book != [] { ListedIsKept(book[..|book| - 1], clock); }
  }

  lemma {:induction false} FindAt(book: Book, i: nat)
    requires Distinct(IdsOf(book)) && i < |book|
    ensures Find(book, book[i].id) == Some(book[i].value)
  {
    var n := |book| - 1;
    IdsLength(book);
    IdsLength(book[..n]);
    if i < n {
      assert IdsOf(book)[i] != IdsOf(book)[n];
      FindAt(book[..n], i);
    }
  }

  lemma SetSameEntries(book: Book, ref: Reference, s: Session, now: int)
    requires SameEntries(book, ref) && !Unsavable(s.expiresAt, now)
    ensures SameEntries(StepBook(book, Set(s, now)), StepRef(ref, Set(s, now)))
  {
    var v, ref' := Record(Serialize(s)), StepRef(ref, Set(s, now));
    forall id: string
      ensures Find(Put(book, s.id, v), id) == if id in ref'.values && id !in ref'.noticed then Some(ref'.values[id]) else None
    {
      FindPut(book, s.id, v, id);
    }
  }

  lemma SetAgrees(book: Book, ref: Reference, from: int, s: Session, now: int)
    requires Agree(book, ref, from) && now >= from && !Unsavable(s.expiresAt, now)
    ensures Agree(StepBook(book, Set(s, now)), StepRef(ref, Set(s, now)), now)
  {
    var v := Record(Serialize(s));
    PutIds(book, s.id, v);
    AddIdMembers(IdsOf(book), s.id);
    FindMember(book, s.id);
    SetSameEntries(book, ref, s, now);
    AscendingSnoc(IdsOf(book), s.id, StepRef(ref, Set(s, now)).since);
  }

  lemma RemoveAgrees(book: Book, ref: Reference, id: string, x: string)
    requires SameEntries(book, ref)
    ensures Find(Remove(book, id), x) == if x != id && x in ref.values && x !in ref.noticed then Some(ref.values[x]) else None
  {
    FindRemove(book, id, x);
  }

  lemma RemovedInOrder(book: Book, since: map<string, nat>, id: string)
    requires Distinct(IdsOf(book)) && Ascending(IdsOf(book), since)
    ensures Distinct(IdsOf(Remove(book, id))) && Ascending(IdsOf(Remove(book, id)), since)
  {
    RemoveIds(book, id);
    RemoveIdMembers(IdsOf(book), id);
    RemoveAscending(IdsOf(book), id, since);
  }

  lemma GetAgrees(book: Book, ref: Reference, from: int, id: string, now: int)
    requires Agree(book, ref, from) && now >= from
    ensures Agree(Read(book, id, now), StepRef(ref, Get(id, now)), now)
  {
    var v := Find(book, id);
    if v.Some? && !Live(v.value, now) {
      RemovedInOrder(book, ref.since, id);
      forall x ensures Find(Remove(book, id), x) == if x != id && x in ref.values && x !in ref.noticed then Some(ref.values[x]) else None {
        RemoveAgrees(book, ref, id, x);
      }
    }
  }

  lemma DeleteAgrees(book: Book, ref: Reference, from: int, id: string)
    requires Agree(book, ref, from)
    ensures Agree(Remove(book, id), StepRef(ref, Delete(id)), from)
  {
    RemovedInOrder(book, ref.since, id);
    forall x ensures Find(Remove(book, id), x) == if x != id && x in ref.values && x !in ref.noticed then Some(ref.values[x]) else None {
      RemoveAgrees(book, ref, id, x);
    }
  }

  lemma KeepingAgrees(book: Book, ref: Reference, from: int, now: int)
    requires Agree(book, ref, from) && now >= from
    ensures Agree(Kept(book, Always(now)), StepRef(ref, List(now)), now)
  {
    KeptDistinct(book, Always(now));
    KeptAscending(book, Always(now), ref.since);
    forall x
      ensures Find(Kept(book, Always(now)), x)
              == if Find(book, x).Some? && Live(Find(book, x).value, now) then Find(book, x) else None
    {
      KeptFind(book, Always(now), now, x);
    }
  }

  lemma ListAgrees(book: Book, ref: Reference, from: int, now: int)
    requires Agree(book, ref, from) && now >= from
    ensures InInsertionOrder(ref, now, Listed(book, Always(now)), IdsOf(Kept(book, Always(now))))
  {
    var kept := Kept(book, Always(now));
    ListedIsKept(book, Always(now));
    IdsLength(kept);
    KeptDistinct(book, Always(now));
    KeptAscending(book, Always(now), ref.since);
    forall i | 0 <= i < |kept|
      ensures kept[i].id in ref.values && Live(ref.values[kept[i].id], now) && ref.values[kept[i].id] == kept[i].value
    {
      FindAt(kept, i);
      KeptFind(book, Always(now), now, kept[i].id);
    }
    forall id | id in ref.values && Live(ref.values[id], now) ensures id in IdsOf(kept) {
      KeptFind(book, Always(now), now, id);
      FindMember(kept, id);
    }
  }

  lemma StepAgrees(book: Book, ref: Reference, from: int, op: Op)
    requires Agree(book, ref, from) && Timed(op, from)
    ensures Agree(StepBook(book, op), StepRef(ref, op), Clock(op, from))
    ensures Answers(ref, op, ResultBook(book, op))
  {
    match op
    case Set(s, now) => if !Unsavable(s.expiresAt, now) { SetAgrees(book, ref, from, s, now); }
    case Get(id, now) => GetAgrees(book, ref, from, id, now);
    case Delete(id) => DeleteAgrees(book, ref, from, id);
    case List(now) =>
      KeepingAgrees(book, ref, from, now);
      ListAgrees(book, ref, from, now);
    case Open(now) => KeepingAgrees(book, ref, from, now);
  }

  function RunBook(ops: seq<Op>): Book {
    if ops == [] then [] else StepBook(RunBook(ops[..|ops| - 1]), ops[|ops| - 1])
  }

  function RunRef(ops: seq<Op>): Reference {
    if ops == [] then NO_SESSIONS else StepRef(RunRef(ops[..|ops| - 1]), ops[|ops| - 1])
  }

  function Now(ops: seq<Op>, from: int): int {
    if ops == [] then from else Clock(ops[|ops| - 1], Now(ops[..|ops| - 1], from))
  }

  // Times never go back.
  predicate Chronological(ops: seq<Op>, from: int) {
    ops == [] || (Chronological(ops[..|ops| - 1], from) && Timed(ops[|ops| - 1], Now(ops[..|ops| - 1], from)))
  }

  lemma {:induction false} RunsAgree(ops: seq<Op>, from: int)
    requires Chronological(ops, from)
    ensures Agree(RunBook(ops), RunRef(ops), Now(ops, from))
  {
    if ops != [] {
      RunsAgree(ops[..|ops| - 1], from);
      StepAgrees(RunBook(ops[..|ops| - 1]), RunRef(ops[..|ops| - 1]), Now(ops[..|ops| - 1], from), ops[|ops| - 1]);
    }
  }

  /** Refinement: under a clock that never goes back, after any operations whatever, every operation
      answers as a map with expiry would that never forgets anything; purging shows in one thing only:
      an id set again after it was noticed dead counts as newly inserted. A list is all the live
      sessions, each once, in the order of insertion. */
  lemma PurgingIsInvisible(ops: seq<Op>, from: int, op: Op)
    requires Chronological(ops, from) && Timed(op, Now(ops, from))
    ensures Answers(RunRef(ops), op, ResultBook(RunBook(ops), op))
  {
    RunsAgree(ops, from);
    StepAgrees(RunBook(ops), RunRef(ops), Now(ops, from), op);
  }

  /** The reference leaves no choice: two lists in insertion order are the same list. */
  lemma OneInsertionOrder(ref: Reference, now: int, a: seq<Session>, b: seq<Session>, x: seq<string>, y: seq<string>)
    requires InInsertionOrder(ref, now, a, x) && InInsertionOrder(ref, now, b, y)
    ensures a == b
  {
    SameAscending(x, y, ref.since);
  }

  lemma {:induction false} SameAscending(a: seq<string>, b: seq<string>, since: map<string, nat>)
    requires Ascending(a, since) && Ascending(b, since) && forall id :: id in a <==> id in b
    ensures a == b
  {
    if b != [] { assert b[0] in b; }
    if a != [] {
      assert a[0] in b;
      var m, n := |a| - 1, |b| - 1;
      assert a[m] in b && b[n] in a;
      assert a[m] == b[n];
      forall id ensures id in a[..m] <==> id in b[..n] {
        assert id in a[..m] <==> id in a && id != a[m];
        assert id in b[..n] <==> id in b && id != b[n];
      }
      SameAscending(a[..m], b[..n], since);
    }
  }
}
