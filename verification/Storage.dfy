// The key-value store, the key layout of its two users, and the transport's persistent state
// (packages/core/src/transport/websocket/store.ts, packages/core/src/session-store/index.ts,
//  packages/core/src/domain/kv-store.ts).

module KeyValue {
  import opened Wrappers

  type Bytes = seq<bv8>

  // A session as JSON keeps it. `expiresAt` is absent where JSON wrote null: for NaN and the infinities.
  datatype StoredSession = StoredSession(
    id: string, channel: string, publicKey: Bytes, privateKey: Bytes, theirPublicKey: Bytes, expiresAt: Option<int>)

  // A stored text, by what it parses as. Unreadable stands for text that is no JSON of the expected shape.
  datatype Value =
    | Nonce(n: nat)
    | LatestNonces(marks: map<string, int>)
    | ClientId(id: string)
    | Ids(ids: seq<string>)
    | Record(session: StoredSession)
    | Unreadable

  type Data = map<string, Value>

  class KVStore {
    var data: Data

    constructor (initial: Data)
      ensures data == initial
    {
      data := initial;
    }

    method Get(key: string) returns (value: Option<Value>)
      ensures value == if key in data then Some(data[key]) else None
    {
      value := if key in data then Some(data[key]) else None;
    }

    method Set(key: string, value: Value)
      modifies this
      ensures data == old(data)[key := value]
    {
      data := data[key := value];
    }

    method Delete(key: string)
      modifies this
      ensures data == old(data) - {key}
    {
      data := data - {key};
    }
  }
}

module StorageKeys {
  import opened Wrappers
  import opened KeyValue

  const SESSION_PREFIX := "session:"
  const MASTER_LIST_KEY := "sessions:master-list"
  const CLIENT_ID_KEY := "websocket-transport-client-id"

  function SessionKey(id: string): string { SESSION_PREFIX + id }
  function NonceKey(clientId: string, channel: string): string { "nonce:" + clientId + ":" + channel }
  function LatestNoncesKey(clientId: string, channel: string): string { "latest-nonces:" + clientId + ":" + channel }

  lemma SamePrefix(prefix: string, a: string, b: string)
    requires prefix + a == prefix + b
    ensures a == b
  {
    assert a == (prefix + a)[|prefix|..] && b == (prefix + b)[|prefix|..];
  }

  lemma SessionKeyIsNotMasterList(id: string)
    ensures SessionKey(id) != MASTER_LIST_KEY
  {
    assert SessionKey(id)[7] == ':' && MASTER_LIST_KEY[7] == 's';
  }

  lemma FirstCharacters(id: string, c: string, channel: string)
    ensures SessionKey(id)[0] == 's' && MASTER_LIST_KEY[0] == 's'
    ensures NonceKey(c, channel)[0] == 'n' && LatestNoncesKey(c, channel)[0] == 'l' && CLIENT_ID_KEY[0] == 'w'
  {
  }

  // Everything the two layers store, as one enumeration.
  datatype Slot = SessionSlot(id: string) | MasterList | NonceSlot(channel: string) | LatestNoncesSlot(channel: string) | ClientIdSlot

  function KeyOf(clientId: string, slot: Slot): string {
    match slot
    case SessionSlot(id) => SessionKey(id)
    case MasterList => MASTER_LIST_KEY
    case NonceSlot(channel) => NonceKey(clientId, channel)
    case LatestNoncesSlot(channel) => LatestNoncesKey(clientId, channel)
    case ClientIdSlot => CLIENT_ID_KEY
  }

  /** For one client id, all keys of both layers are pairwise distinct. */
  lemma KeysAreInjective(clientId: string, a: Slot, b: Slot)
    ensures KeyOf(clientId, a) == KeyOf(clientId, b) <==> a == b
  {
    if KeyOf(clientId, a) == KeyOf(clientId, b) {
      var id1 := if a.SessionSlot? then a.id else "";
      var ch1 := if a.NonceSlot? || a.LatestNoncesSlot? then a.channel else "";
      var id2 := if b.SessionSlot? then b.id else "";
      var ch2 := if b.NonceSlot? || b.LatestNoncesSlot? then b.channel else "";
      FirstCharacters(id1, clientId, ch1);
      FirstCharacters(id2, clientId, ch2);
      SessionKeyIsNotMasterList(id1);
      SessionKeyIsNotMasterList(id2);
      match a
      case SessionSlot(_) => SamePrefix(SESSION_PREFIX, id1, id2);
      case NonceSlot(_) => SamePrefix("nonce:" + clientId + ":", ch1, ch2);
      case LatestNoncesSlot(_) => SamePrefix("latest-nonces:" + clientId + ":", ch1, ch2);
      case _ =>
    }
  }

  lemma ShorterFrontPutsColonInLonger(a: string, x: string, b: string, y: string)
    requires |a| < |b| && a + ":" + x == b + ":" + y
    ensures ':' in b
  {
    assert b[|a|] == (b + ":" + y)[|a|] == (a + ":" + x)[|a|] == ':';
  }

  lemma FirstColon(a: string, x: string, b: string, y: string)
    requires ':' !in a && ':' !in b && a + ":" + x == b + ":" + y
    ensures a == b && x == y
  {
    if |a| < |b| {
      ShorterFrontPutsColonInLonger(a, x, b, y);
    } else if |b| < |a| {
      ShorterFrontPutsColonInLonger(b, y, a, x);
    } else {
      var s := a + ":" + x;
      assert a == s[..|a|] && b == s[..|b|];
      SamePrefix(a + ":", x, y);
    }
  }

  /** Transports of different clients share one store safely: client ids hold no colon (they are
      uuids), and then nonce records are told apart by client as well as by channel. */
  lemma ClientsAreSeparate(c1: string, ch1: string, c2: string, ch2: string)
    requires ':' !in c1 && ':' !in c2
    ensures NonceKey(c1, ch1) == NonceKey(c2, ch2) <==> c1 == c2 && ch1 == ch2
    ensures LatestNoncesKey(c1, ch1) == LatestNoncesKey(c2, ch2) <==> c1 == c2 && ch1 == ch2
  {
    assert NonceKey(c1, ch1) == "nonce:" + (c1 + ":" + ch1) && NonceKey(c2, ch2) == "nonce:" + (c2 + ":" + ch2);
    assert LatestNoncesKey(c1, ch1) == "latest-nonces:" + (c1 + ":" + ch1);
    assert LatestNoncesKey(c2, ch2) == "latest-nonces:" + (c2 + ":" + ch2);
    if NonceKey(c1, ch1) == NonceKey(c2, ch2) {
      SamePrefix("nonce:", c1 + ":" + ch1, c2 + ":" + ch2);
      FirstColon(c1, ch1, c2, ch2);
    }
    if LatestNoncesKey(c1, ch1) == LatestNoncesKey(c2, ch2) {
      SamePrefix("latest-nonces:", c1 + ":" + ch1, c2 + ":" + ch2);
      FirstColon(c1, ch1, c2, ch2);
    }
  }

  /** Without that, they are not: a colon in a client id makes two clients' records collide. */
  lemma ColonInClientIdCollides(a: string, b: string, c: string)
    ensures NonceKey(a, b + ":" + c) == NonceKey(a + ":" + b, c)
  {
    assert NonceKey(a, b + ":" + c) == "nonce:" + a + ":" + b + ":" + c;
    assert NonceKey(a + ":" + b, c) == "nonce:" + a + ":" + b + ":" + c;
  }
}

module TransportStorage {
  import opened Wrappers
  import opened KeyValue
  import opened StorageKeys

  // The persistent state of one transport, read off the store.
  function NonceAt(data: Data, clientId: string, channel: string): nat {
    var key := NonceKey(clientId, channel);
    if key in data && data[key].Nonce? then data[key].n else 0
  }

  function MarksAt(data: Data, clientId: string, channel: string): map<string, int> {
    var key := LatestNoncesKey(clientId, channel);
    if key in data && data[key].LatestNonces? then data[key].marks else map[]
  }

  // JSON.parse would throw on anything else.
  predicate MarksReadable(data: Data, clientId: string, channel: string) {
    LatestNoncesKey(clientId, channel) in data ==> data[LatestNoncesKey(clientId, channel)].LatestNonces?
  }

  // The two stores hold the same under every slot but the given ones.
  ghost predicate SameBut(clientId: string, a: Data, b: Data, slots: set<Slot>) {
    forall slot: Slot {:trigger KeyOf(clientId, slot)} :: slot !in slots ==>
      var key := KeyOf(clientId, slot);
      (key in a <==> key in b) && (key in a ==> a[key] == b[key])
  }

  lemma WriteTouchesOneSlot(clientId: string, data: Data, slot: Slot, value: Value)
    ensures SameBut(clientId, data, data[KeyOf(clientId, slot) := value], {slot})
    ensures SameBut(clientId, data, data - {KeyOf(clientId, slot)}, {slot})
  {
    forall other: Slot | other != slot ensures KeyOf(clientId, other) != KeyOf(clientId, slot) {
      KeysAreInjective(clientId, slot, other);
    }
  }

  class WebSocketTransportStorage {
    const kvstore: KVStore
    const clientId: string

    constructor (kvstore: KVStore, clientId: string)
      ensures this.kvstore == kvstore && this.clientId == clientId
    {
      this.kvstore, this.clientId := kvstore, clientId;
    }

    /** Reuses the stored client id; only a store without one gets `uuid`. */
    static method Create(kvstore: KVStore, uuid: string) returns (storage: WebSocketTransportStorage)
      requires uuid != ""
      modifies kvstore
      ensures storage.kvstore == kvstore && storage.clientId != ""
      ensures CLIENT_ID_KEY in kvstore.data && kvstore.data[CLIENT_ID_KEY] == ClientId(storage.clientId)
      ensures var before := old(kvstore.data);
        if CLIENT_ID_KEY in before && before[CLIENT_ID_KEY].ClientId? && before[CLIENT_ID_KEY].id != ""
        then kvstore.data == before
        else storage.clientId == uuid && SameBut(uuid, before, kvstore.data, {ClientIdSlot})
    {
      var clientId := "";
      var value := kvstore.Get(CLIENT_ID_KEY);
      if value.Some? && value.value.ClientId? { clientId := value.value.id; }
      if clientId == "" {
        clientId := uuid;
        WriteTouchesOneSlot(uuid, kvstore.data, ClientIdSlot, ClientId(uuid));
        kvstore.Set(CLIENT_ID_KEY, ClientId(clientId));
      }
      storage := new WebSocketTransportStorage(kvstore, clientId);
    }

    // getNextNonce awaits twice: the read of the record and the write of the next nonce.
    method ReadNonce(channel: string) returns (nonce: nat)
      ensures nonce == NonceAt(kvstore.data, clientId, channel)
    {
      var value := kvstore.Get(NonceKey(clientId, channel));
      nonce := if value.Some? && value.value.Nonce? then value.value.n else 0;
    }

    method WriteNonce(channel: string, nonce: nat)
      modifies kvstore
      ensures NonceAt(kvstore.data, clientId, channel) == nonce
      ensures SameBut(clientId, old(kvstore.data), kvstore.data, {NonceSlot(channel)})
    {
      WriteTouchesOneSlot(clientId, kvstore.data, NonceSlot(channel), Nonce(nonce));
      kvstore.Set(NonceKey(clientId, channel), Nonce(nonce));
    }

    /** Without interruption: one more than the last nonce, persisted before it is returned. */
    method GetNextNonce(channel: string) returns (nonce: nat)
      modifies kvstore
      ensures nonce == old(NonceAt(kvstore.data, clientId, channel)) + 1
      ensures NonceAt(kvstore.data, clientId, channel) == nonce
      ensures SameBut(clientId, old(kvstore.data), kvstore.data, {NonceSlot(channel)})
    {
      var current := ReadNonce(channel);
      nonce := current + 1;
      WriteNonce(channel, nonce);
    }

    /** Throws (None) on a record that does not parse. */
    method GetLatestNonces(channel: string) returns (marks: Option<map<string, int>>)
      ensures marks.Some? <==> MarksReadable(kvstore.data, clientId, channel)
      ensures marks.Some? ==> marks.value == MarksAt(kvstore.data, clientId, channel)
    {
      var value := kvstore.Get(LatestNoncesKey(clientId, channel));
      if value.None? { return Some(map[]); }
      if !value.value.LatestNonces? { return None; }
      return Some(value.value.marks);
    }

    method SetLatestNonces(channel: string, marks: map<string, int>)
      modifies kvstore
      ensures MarksReadable(kvstore.data, clientId, channel) && MarksAt(kvstore.data, clientId, channel) == marks
      ensures SameBut(clientId, old(kvstore.data), kvstore.data, {LatestNoncesSlot(channel)})
    {
      WriteTouchesOneSlot(clientId, kvstore.data, LatestNoncesSlot(channel), LatestNonces(marks));
      kvstore.Set(LatestNoncesKey(clientId, channel), LatestNonces(marks));
    }

    /** Forgets one channel and nothing else. */
    method Clear(channel: string)
      modifies kvstore
      ensures NonceAt(kvstore.data, clientId, channel) == 0 && MarksAt(kvstore.data, clientId, channel) == map[]
      ensures SameBut(clientId, old(kvstore.data), kvstore.data, {NonceSlot(channel), LatestNoncesSlot(channel)})
    {
      WriteTouchesOneSlot(clientId, kvstore.data, NonceSlot(channel), Unreadable);
      kvstore.Delete(NonceKey(clientId, channel));
      WriteTouchesOneSlot(clientId, kvstore.data, LatestNoncesSlot(channel), Unreadable);
      kvstore.Delete(LatestNoncesKey(clientId, channel));
    }
  }

  predicate IsSessionSlot(slot: Slot) { slot.SessionSlot? || slot.MasterList? }

  predicate IsSessionKey(key: string) { SESSION_PREFIX <= key || key == MASTER_LIST_KEY }

  // Only keys of the session layer differ.
  ghost predicate OnlySessionKeysDiffer(a: Data, b: Data) {
    forall key: string :: !IsSessionKey(key) ==> (key in a <==> key in b) && (key in a ==> a[key] == b[key])
  }

  /** One store serves both layers: if only session keys changed, every nonce, every mark and the
      client id are as before, for every client. */
  lemma SessionWritesSpareTransport(clientId: string, a: Data, b: Data, channel: string)
    requires OnlySessionKeysDiffer(a, b)
    ensures NonceAt(a, clientId, channel) == NonceAt(b, clientId, channel)
    ensures MarksAt(a, clientId, channel) == MarksAt(b, clientId, channel)
    ensures CLIENT_ID_KEY in a <==> CLIENT_ID_KEY in b
    ensures CLIENT_ID_KEY in a ==> a[CLIENT_ID_KEY] == b[CLIENT_ID_KEY]
  {
    FirstCharacters("", clientId, channel);
    assert !IsSessionKey(NonceKey(clientId, channel)) && !IsSessionKey(LatestNoncesKey(clientId, channel));
    assert !IsSessionKey(CLIENT_ID_KEY);
  }

  /** And the reverse: if only transport slots changed, every record and the master list are as before. */
  lemma TransportWritesSpareSessions(clientId: string, a: Data, b: Data, slots: set<Slot>, id: string)
    requires SameBut(clientId, a, b, slots) && forall slot :: slot in slots ==> !IsSessionSlot(slot)
    ensures SessionKey(id) in a <==> SessionKey(id) in b
    ensures SessionKey(id) in a ==> a[SessionKey(id)] == b[SessionKey(id)]
    ensures MASTER_LIST_KEY in a <==> MASTER_LIST_KEY in b
    ensures MASTER_LIST_KEY in a ==> a[MASTER_LIST_KEY] == b[MASTER_LIST_KEY]
  {
    assert KeyOf(clientId, SessionSlot(id)) == SessionKey(id);
    assert KeyOf(clientId, MasterList) == MASTER_LIST_KEY;
  }

  /** Clearing one channel leaves every other channel of the transport unchanged. */
  lemma ClearSparesOtherChannels(clientId: string, a: Data, b: Data, channel: string, other: string)
    requires SameBut(clientId, a, b, {NonceSlot(channel), LatestNoncesSlot(channel)}) && other != channel
    ensures NonceAt(a, clientId, other) == NonceAt(b, clientId, other)
    ensures MarksAt(a, clientId, other) == MarksAt(b, clientId, other)
  {
    assert KeyOf(clientId, NonceSlot(other)) == NonceKey(clientId, other);
    assert KeyOf(clientId, LatestNoncesSlot(other)) == LatestNoncesKey(clientId, other);
  }
}
