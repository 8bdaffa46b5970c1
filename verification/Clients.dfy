// The two clients, one public call at a time: connect with its handlers, resume, reconnect and
// disconnect, with a fault possible at every awaited step (packages/core/src/base-client.ts,
// packages/dapp-client/src/client.ts, packages/wallet-client/src/client.ts and their handlers).

module ConnectScripts {
  datatype Mode = Trusted | Untrusted

  // The steps of a connect that can fail, in the source's terms.
  datatype Act =
    | CreateSession          // the wallet checks the dApp's key and makes its session
    | ConnectTransport
    | SubscribeHandshake
    | SubscribeSession
    | SendOffer
    | AwaitOffer
    | EnterOtp
    | FinalizeSession        // the dApp checks the wallet's key and makes the final session
    | SendAck
    | AwaitAck
    | StoreSession
    | ClearHandshake

  function DappScript(mode: Mode): seq<Act> {
    if mode.Untrusted?
    then [ConnectTransport, SubscribeHandshake, AwaitOffer, EnterOtp, FinalizeSession, SubscribeSession, SendAck,
          StoreSession, ClearHandshake]
    else [ConnectTransport, SubscribeHandshake, AwaitOffer, FinalizeSession, StoreSession, SubscribeSession, ClearHandshake]
  }

  function WalletScript(mode: Mode): seq<Act> {
    if mode.Untrusted?
    then [CreateSession, ConnectTransport, SubscribeHandshake, SubscribeSession, SendOffer, AwaitAck,
          StoreSession, ClearHandshake]
    else [CreateSession, ConnectTransport, SubscribeHandshake, SubscribeSession, SendOffer, StoreSession, ClearHandshake]
  }

  // How many steps the wallet has done when it makes the new session its own.
  function WalletOwnsSessionAfter(mode: Mode): nat { if mode.Untrusted? then 4 else 1 }
}

module Clients {
  import opened Wrappers
  import opened ConnectScripts

  datatype Session = Session(id: string, channel: string, key: nat, theirKey: nat)

  datatype ClientState = DISCONNECTED | CONNECTING | CONNECTED

  // What goes wrong at a step: it throws; the session turns out to have expired when a message is to
  // be sent; or the record is written and then the master-list update throws.
  datatype Fault = NoFault | Throws | Expired | Partial

  datatype Outcome = Pass | Fail {
    predicate IsFailure() { Fail? }
    function PropagateFailure(): Outcome requires Fail? { Fail }
  }

  function FirstFault(script: seq<Act>, fault: Act -> Fault): (k: nat)
    ensures k <= |script|
    ensures forall i :: 0 <= i < k ==> fault(script[i]).NoFault?
    ensures k < |script| ==> !fault(script[k]).NoFault?
  {
    if script == [] then 0
    else if !fault(script[0]).NoFault? then 0
    else 1 + FirstFault(script[1..], fault)
  }

  // The steps that were attempted.
  function Attempted(script: seq<Act>, fault: Act -> Fault): seq<Act> {
    var k := FirstFault(script, fault);
    if k == |script| then script else script[..k + 1]
  }

  // Step k of the script is the first to go wrong; k == |script| if none does.
  predicate FaultsAt(script: seq<Act>, fault: Act -> Fault, k: nat) {
    && k <= |script|
    && (forall i :: 0 <= i < k ==> fault(script[i]).NoFault?)
    && (k < |script| ==> !fault(script[k]).NoFault?)
  }

  // How many steps are attempted if step k is the first to go wrong.
  function UpTo(script: seq<Act>, k: nat): nat { if k < |script| then k + 1 else |script| }

  lemma FaultAtOnce(script: seq<Act>, fault: Act -> Fault)
    requires script != [] && !fault(script[0]).NoFault?
    ensures FirstFault(script, fault) == 0
  {
  }

  lemma AttemptedUpTo(script: seq<Act>, fault: Act -> Fault)
    ensures Attempted(script, fault) == script[..UpTo(script, FirstFault(script, fault))]
  {
    assert script[..|script|] == script;
  }

  class BaseClient {
    var state: ClientState
    var session: Option<Session>
    // The session store's records.
    var stored: map<string, Session>
    // The steps attempted by connect, oldest first.
    ghost var trace: seq<Act>

    constructor (stored: map<string, Session>)
      ensures state == DISCONNECTED && session == None && this.stored == stored && trace == []
    {
      state, session, this.stored, trace := DISCONNECTED, None, stored, [];
    }

    // Between public calls: never half-connected, and connected only with a stored session in hand.
    ghost predicate Settled() reads this {
      && !state.CONNECTING?
      && (state.CONNECTED? ==> session.Some? && session.value.id in stored && stored[session.value.id] == session.value)
    }

    // Every record is kept under its session's own id.
    ghost predicate FiledById() reads this { forall id :: id in stored ==> stored[id].id == id }

    // Step i of a script whose first fault is at k; all steps before it are done.
    ghost predicate AtStep(act: Act, start: seq<Act>, script: seq<Act>, fault: Act -> Fault, k: nat, i: nat) reads this {
      i <= k && i < |script| && script[i] == act && FaultsAt(script, fault, k) && trace == start + script[..i]
    }

    twostate predicate Stepped(start: seq<Act>, script: seq<Act>, k: nat, i: nat, r: Outcome) reads this {
      && i < |script|
      && (r.Pass? <==> i < k)
      && (r.Fail? <==> i == k)
      && trace == start + script[..i + 1]
    }

    // An awaited step that can only throw.
    method Await(act: Act, fault: Act -> Fault, ghost start: seq<Act>, ghost script: seq<Act>, ghost k: nat, ghost i: nat)
      returns (r: Outcome)
      requires AtStep(act, start, script, fault, k, i)
      modifies this`trace
      ensures Stepped(start, script, k, i, r)
    {
      assert script[..i + 1] == script[..i] + [act];
      trace := trace + [act];
      r := if fault(act).NoFault? then Pass else Fail;
    }

    // sendMessage: an expired session is disconnected before the throw.
    method SendMessage(act: Act, fault: Act -> Fault, ghost start: seq<Act>, ghost script: seq<Act>, ghost k: nat, ghost i: nat)
      returns (r: Outcome)
      requires AtStep(act, start, script, fault, k, i) && session.Some?
      modifies this
      ensures Stepped(start, script, k, i, r)
      ensures if fault(act).Expired?
              then r.Fail? && state == DISCONNECTED && session == None && stored == old(stored) - {old(session).value.id}
              else state == old(state) && session == old(session) && stored == old(stored)
    {
      assert script[..i + 1] == script[..i] + [act];
      trace := trace + [act];
      if fault(act).Expired? {
        Disconnect();
        return Fail;
      }
      r := if fault(act).NoFault? then Pass else Fail;
    }

    // sessionstore.set
    method StoreTheSession(fault: Act -> Fault, ghost start: seq<Act>, ghost script: seq<Act>, ghost k: nat, ghost i: nat)
      returns (r: Outcome)
      requires AtStep(StoreSession, start, script, fault, k, i) && session.Some?
      modifies this`trace, this`stored
      ensures Stepped(start, script, k, i, r)
      ensures r.Pass? ==> stored == old(stored)[session.value.id := session.value]
      ensures r.Fail? ==> stored == old(stored) || stored == old(stored)[session.value.id := session.value]
    {
      assert script[..i + 1] == script[..i] + [StoreSession];
      trace := trace + [StoreSession];
      if fault(StoreSession).NoFault? || fault(StoreSession).Partial? {
        stored := stored[session.value.id := session.value];
      }
      r := if fault(StoreSession).NoFault? then Pass else Fail;
    }

    /** Forgets the session in memory and in the store. Its own calls are taken to succeed. */
    method Disconnect()
      modifies this`state, this`session, this`stored
      ensures session == None
      ensures old(session).None? ==> state == old(state) && stored == old(stored)
      ensures old(session).Some? ==> state == DISCONNECTED && stored == old(stored) - {old(session).value.id}
      ensures old(Settled()) ==> Settled()
    {
      if session.None? { return; }
      var gone := session.value;
      session := None;
      state := DISCONNECTED;
      stored := stored - {gone.id};
    }

    /** Either connected with the stored session, or disconnected with none; the store is not changed. */
    method Resume(id: string, keyValid: bool, fault: Act -> Fault) returns (r: Outcome)
      modifies this
      ensures stored == old(stored)
      ensures old(Settled()) && old(FiledById()) ==> Settled()
      ensures !old(state).DISCONNECTED? ==> r.Fail? && state == old(state) && session == old(session)
      ensures old(state).DISCONNECTED? ==>
        && (r.Pass? <==> id in stored && keyValid && fault(ConnectTransport).NoFault? && fault(SubscribeSession).NoFault?)
        && (r.Pass? ==> state == CONNECTED && session == Some(stored[id]))
        && (r.Fail? ==> state == DISCONNECTED && session == None)
    {
      if !state.DISCONNECTED? { return Fail; }
      state := CONNECTING;
      r := TryResume(id, keyValid, fault);
      if r.Fail? {
        state := DISCONNECTED;
        session := None;
      }
    }

    method TryResume(id: string, keyValid: bool, fault: Act -> Fault) returns (r: Outcome)
      modifies this
      ensures stored == old(stored)
      ensures r.Pass? <==> id in stored && keyValid && fault(ConnectTransport).NoFault? && fault(SubscribeSession).NoFault?
      ensures r.Pass? ==> state == CONNECTED && session == Some(stored[id])
    {
      if id !in stored || !keyValid { return Fail; }
      session := Some(stored[id]);
      if !fault(ConnectTransport).NoFault? { return Fail; }
      if !fault(SubscribeSession).NoFault? { return Fail; }
      state := CONNECTED;
      return Pass;
    }

    /** A failed reconnect leaves the client disconnected but keeps the session in memory. */
    method Reconnect(fails: bool) returns (r: Outcome)
      modifies this`state
      ensures old(Settled()) && (session.Some? ==> session.value.id in stored && stored[session.value.id] == session.value)
        ==> Settled()
      ensures if old(state).CONNECTING? || session.None? then r.Pass? && state == old(state)
              else if fails then r.Fail? && state == DISCONNECTED else r.Pass? && state == CONNECTED
    {
      if state.CONNECTING? || session.None? { return Pass; }
      state := CONNECTING;
      if fails {
        state := DISCONNECTED;
        return Fail;
      }
      state := CONNECTED;
      return Pass;
    }
  }

  class DappClient {
    const base: BaseClient

    constructor (base: BaseClient)
      ensures this.base == base
    {
      this.base := base;
    }

    /** connect() is all or nothing: it performs its script up to the first fault, and then the client
        is either connected with the final session stored, or disconnected with no session in memory
        and none in the store under the request's id. No other record is touched. */
    method Connect(mode: Mode, pending: Session, final: Session, fault: Act -> Fault) returns (r: Outcome)
      requires pending.id == final.id
      modifies base
      ensures old(base.Settled()) ==> base.Settled()
      ensures !old(base.state).DISCONNECTED? ==>
        r.Fail? && unchanged(base)
      ensures old(base.state).DISCONNECTED? ==>
        && base.trace == old(base.trace) + Attempted(DappScript(mode), fault)
        && (r.Pass? <==> FirstFault(DappScript(mode), fault) == |DappScript(mode)|)
        && (r.Pass? ==> base.state == CONNECTED && base.session == Some(final) && base.stored == old(base.stored)[final.id := final])
        && (r.Fail? ==> base.state == DISCONNECTED && base.session == None && base.stored == old(base.stored) - {final.id})
    {
      if !base.state.DISCONNECTED? { return Fail; }
      base.state := CONNECTING;
      base.session := Some(pending);
      ghost var script := DappScript(mode);
      if mode.Untrusted? {
        r := ExecuteUntrusted(final, fault, script, FirstFault(script, fault));
      } else {
        r := ExecuteTrusted(final, fault, script, FirstFault(script, fault));
      }
      assert script[..|script|] == script;
      if r.Fail? {
        base.Disconnect();
      }
    }

    // What a handler leaves behind: success with everything in place, or a session still to be cleaned up
    // (or cleaned up already, if it had expired).
    twostate predicate Handled(final: Session, script: seq<Act>, k: nat, r: Outcome)
      reads base
    {
      && base.trace == old(base.trace) + script[..UpTo(script, k)]
      && (r.Pass? <==> k == |script|)
      && (r.Pass? ==> base.state == CONNECTED && base.session == Some(final) && base.stored == old(base.stored)[final.id := final])
      && (r.Fail? && base.session.Some? ==>
            && base.session.value.id == final.id
            && (base.stored == old(base.stored) || base.stored == old(base.stored)[final.id := final]))
      && (r.Fail? && base.session.None? ==> base.state == DISCONNECTED && base.stored == old(base.stored) - {final.id})
    }

    static predicate IsUntrusted(script: seq<Act>) {
      && |script| == 9 && script[0] == ConnectTransport && script[1] == SubscribeHandshake && script[2] == AwaitOffer
      && script[3] == EnterOtp && script[4] == FinalizeSession && script[5] == SubscribeSession && script[6] == SendAck
      && script[7] == StoreSession && script[8] == ClearHandshake
    }

    // Up to the wallet's offer, the same in both modes.
    method ReceiveOffer(fault: Act -> Fault, ghost start: seq<Act>, ghost script: seq<Act>, ghost k: nat) returns (r: Outcome)
      requires |script| >= 3 && script[0] == ConnectTransport && script[1] == SubscribeHandshake && script[2] == AwaitOffer
      requires FaultsAt(script, fault, k) && base.trace == start
      modifies base`trace
      ensures r.Pass? <==> k >= 3
      ensures base.trace == start + script[..if r.Pass? then 3 else k + 1]
    {
      assert script[..0] == [];
      :- base.Await(ConnectTransport, fault, start, script, k, 0);
      :- base.Await(SubscribeHandshake, fault, start, script, k, 1);
      :- base.Await(AwaitOffer, fault, start, script, k, 2);
      return Pass;
    }

    // Up to the final session: only the trace changes.
    method VerifyWallet(fault: Act -> Fault, ghost start: seq<Act>, ghost script: seq<Act>, ghost k: nat) returns (r: Outcome)
      requires IsUntrusted(script) && FaultsAt(script, fault, k) && base.trace == start
      modifies base`trace
      ensures r.Pass? <==> k >= 5
      ensures base.trace == start + script[..if r.Pass? then 5 else k + 1]
    {
      r := Pass;
      :- ReceiveOffer(fault, start, script, k);
      :- base.Await(EnterOtp, fault, start, script, k, 3);
      :- base.Await(FinalizeSession, fault, start, script, k, 4);
    }

    method ExecuteUntrusted(final: Session, fault: Act -> Fault, ghost script: seq<Act>, ghost k: nat) returns (r: Outcome)
      requires base.session.Some? && base.session.value.id == final.id && base.state.CONNECTING?
      requires IsUntrusted(script) && FaultsAt(script, fault, k)
      modifies base
      ensures Handled(final, script, k, r)
    {
      ghost var start := base.trace;
      :- VerifyWallet(fault, start, script, k);
      base.session := Some(final);
      :- base.Await(SubscribeSession, fault, start, script, k, 5);
      :- base.SendMessage(SendAck, fault, start, script, k, 6);
      :- base.StoreTheSession(fault, start, script, k, 7);
      :- base.Await(ClearHandshake, fault, start, script, k, 8);
      base.state := CONNECTED;
      return Pass;
    }

    static predicate IsTrusted(script: seq<Act>) {
      && |script| == 7 && script[0] == ConnectTransport && script[1] == SubscribeHandshake && script[2] == AwaitOffer
      && script[3] == FinalizeSession && script[4] == StoreSession && script[5] == SubscribeSession && script[6] == ClearHandshake
    }

    method ExecuteTrusted(final: Session, fault: Act -> Fault, ghost script: seq<Act>, ghost k: nat) returns (r: Outcome)
      requires base.session.Some? && base.session.value.id == final.id && base.state.CONNECTING?
      requires IsTrusted(script) && FaultsAt(script, fault, k)
      modifies base
      ensures Handled(final, script, k, r)
    {
      ghost var start := base.trace;
      :- ReceiveOffer(fault, start, script, k);
      :- base.Await(FinalizeSession, fault, start, script, k, 3);
      base.session := Some(final);
      :- base.StoreTheSession(fault, start, script, k, 4);
      :- base.Await(SubscribeSession, fault, start, script, k, 5);
      :- base.Await(ClearHandshake, fault, start, script, k, 6);
      base.state := CONNECTED;
      return Pass;
    }
  }

  class WalletClient {
    const base: BaseClient

    constructor (base: BaseClient)
      ensures this.base == base
    {
      this.base := base;
    }

    // The id whose record a failed connect removes: the new session's once it is the client's own, and
    // before that the id of a session left over from a failed reconnect, if there is one.
    static function Cleaned(mode: Mode, attempted: nat, id: string, leftOver: Option<Session>): set<string> {
      if attempted >= WalletOwnsSessionAfter(mode) then {id}
      else if leftOver.Some? then {leftOver.value.id} else {}
    }

    // What the store holds after a connect whose step k is the first to fail, if any does.
    static function StoredAt(mode: Mode, k: nat, session: Session, leftOver: Option<Session>, before: map<string, Session>)
      : map<string, Session>
    {
      if k >= |WalletScript(mode)| then before[session.id := session] else before - Cleaned(mode, k, session.id, leftOver)
    }

    static function StoredAfter(mode: Mode, fault: Act -> Fault, session: Session, leftOver: Option<Session>,
                                before: map<string, Session>): map<string, Session> {
      StoredAt(mode, FirstFault(WalletScript(mode), fault), session, leftOver, before)
    }

    static predicate Fails(mode: Mode, fault: Act -> Fault) {
      FirstFault(WalletScript(mode), fault) < |WalletScript(mode)|
    }

    // What the handler leaves, once the session it leaves behind is cleaned up.
    static lemma CleanedUp(mode: Mode, k: nat, session: Session, leftOver: Option<Session>, before: map<string, Session>,
                           left: Option<Session>, stored: map<string, Session>)
      requires k < |WalletScript(mode)|
      requires k < WalletOwnsSessionAfter(mode) ==> left == leftOver && stored == before
      requires k >= WalletOwnsSessionAfter(mode) && left.Some? ==>
        left.value.id == session.id && (stored == before || stored == before[session.id := session])
      requires k >= WalletOwnsSessionAfter(mode) && left.None? ==> stored == before - {session.id}
      ensures (if left.Some? then stored - {left.value.id} else stored) == StoredAt(mode, k, session, leftOver, before)
    {
    }

    /** connect() of the wallet. On failure it too ends disconnected with no session in memory; but the
        record under the request's id is removed only if the new session had become the client's own. */
    method Connect(mode: Mode, requestExpired: bool, session: Session, fault: Act -> Fault) returns (r: Outcome)
      modifies base
      ensures old(base.Settled()) ==> base.Settled()
      ensures !old(base.state).DISCONNECTED? || requestExpired ==>
        r.Fail? && unchanged(base)
      ensures old(base.state).DISCONNECTED? && !requestExpired ==>
        && base.trace == old(base.trace) + Attempted(WalletScript(mode), fault)
        && base.stored == StoredAfter(mode, fault, session, old(base.session), old(base.stored))
        && (if Fails(mode, fault)
            then r.Fail? && base.state == DISCONNECTED && base.session == None
            else r.Pass? && base.state == CONNECTED && base.session == Some(session))
    {
      if !base.state.DISCONNECTED? || requestExpired { return Fail; }
      base.state := CONNECTING;
      r := Execute(mode, session, fault);
      AttemptedUpTo(WalletScript(mode), fault);
      if r.Fail? {
        CleanedUp(mode, FirstFault(WalletScript(mode), fault), session, old(base.session), old(base.stored), base.session, base.stored);
        CleanUp();
      }
    }

    method CleanUp()
      modifies base`state, base`session, base`stored
      ensures base.state == DISCONNECTED && base.session == None
      ensures base.stored == if old(base.session).Some? then old(base.stored) - {old(base.session).value.id} else old(base.stored)
    {
      if base.session.Some? {
        base.Disconnect();
      } else {
        base.state := DISCONNECTED;
      }
    }

    method Execute(mode: Mode, session: Session, fault: Act -> Fault) returns (r: Outcome)
      modifies base
      ensures Handled(session, WalletScript(mode), WalletOwnsSessionAfter(mode), FirstFault(WalletScript(mode), fault), r)
    {
      ghost var script := WalletScript(mode);
      if mode.Untrusted? {
        r := ExecuteUntrusted(session, fault, script, FirstFault(script, fault));
      } else {
        r := ExecuteTrusted(session, fault, script, FirstFault(script, fault));
      }
    }

    twostate predicate Handled(session: Session, script: seq<Act>, owned: nat, k: nat, r: Outcome)
      reads base
    {
      && base.trace == old(base.trace) + script[..UpTo(script, k)]
      && (r.Pass? <==> k == |script|)
      && (r.Pass? ==>
            && base.state == CONNECTED && base.session == Some(session)
            && base.stored == old(base.stored)[session.id := session])
      && (r.Fail? && k < owned ==> base.session == old(base.session) && base.stored == old(base.stored))
      && (r.Fail? && k >= owned && base.session.Some? ==>
            && base.session.value.id == session.id
            && (base.stored == old(base.stored) || base.stored == old(base.stored)[session.id := session]))
      && (r.Fail? && k >= owned && base.session.None? ==> base.stored == old(base.stored) - {session.id})
    }

    // Both modes connect and subscribe to the two channels after making the session: only the trace changes.
    method ReachChannels(fault: Act -> Fault, ghost start: seq<Act>, ghost script: seq<Act>, ghost k: nat) returns (r: Outcome)
      requires |script| >= 4 && script[1] == ConnectTransport && script[2] == SubscribeHandshake && script[3] == SubscribeSession
      requires FaultsAt(script, fault, k) && k >= 1 && base.trace == start + script[..1]
      modifies base`trace
      ensures r.Pass? <==> k >= 4
      ensures base.trace == start + script[..if r.Pass? then 4 else k + 1]
    {
      r := Pass;
      :- base.Await(ConnectTransport, fault, start, script, k, 1);
      :- base.Await(SubscribeHandshake, fault, start, script, k, 2);
      :- base.Await(SubscribeSession, fault, start, script, k, 3);
    }

    static predicate IsUntrusted(script: seq<Act>) {
      && |script| == 8 && script[0] == CreateSession && script[1] == ConnectTransport && script[2] == SubscribeHandshake
      && script[3] == SubscribeSession && script[4] == SendOffer && script[5] == AwaitAck && script[6] == StoreSession
      && script[7] == ClearHandshake
    }

    method ExecuteUntrusted(session: Session, fault: Act -> Fault, ghost script: seq<Act>, ghost k: nat) returns (r: Outcome)
      requires IsUntrusted(script) && FaultsAt(script, fault, k)
      modifies base
      ensures Handled(session, script, 4, k, r)
    {
      ghost var start := base.trace;
      assert script[..0] == [];
      :- base.Await(CreateSession, fault, start, script, k, 0);
      :- ReachChannels(fault, start, script, k);
      base.session := Some(session);
      :- base.SendMessage(SendOffer, fault, start, script, k, 4);
      :- base.Await(AwaitAck, fault, start, script, k, 5);
      :- base.StoreTheSession(fault, start, script, k, 6);
      :- base.Await(ClearHandshake, fault, start, script, k, 7);
      base.state := CONNECTED;
      return Pass;
    }

    static predicate IsTrusted(script: seq<Act>) {
      && |script| == 7 && script[0] == CreateSession && script[1] == ConnectTransport && script[2] == SubscribeHandshake
      && script[3] == SubscribeSession && script[4] == SendOffer && script[5] == StoreSession && script[6] == ClearHandshake
    }

    method ExecuteTrusted(session: Session, fault: Act -> Fault, ghost script: seq<Act>, ghost k: nat) returns (r: Outcome)
      requires IsTrusted(script) && FaultsAt(script, fault, k)
      modifies base
      ensures Handled(session, script, 1, k, r)
    {
      ghost var start := base.trace;
      assert script[..0] == [];
      :- base.Await(CreateSession, fault, start, script, k, 0);
      base.session := Some(session);
      :- ReachChannels(fault, start, script, k);
      :- base.SendMessage(SendOffer, fault, start, script, k, 4);
      :- base.StoreTheSession(fault, start, script, k, 5);
      :- base.Await(ClearHandshake, fault, start, script, k, 6);
      base.state := CONNECTED;
      return Pass;
    }

    // Only this step goes wrong.
    static function FaultAt(act: Act): Act -> Fault { a => if a == act then Throws else NoFault }

    // What is gone if it fails before the session is the client's own.
    static function LeftOverId(leftOver: Option<Session>): set<string> {
      if leftOver.Some? then {leftOver.value.id} else {}
    }

    static lemma FirstIsCreate(mode: Mode)
      ensures |WalletScript(mode)| > 0 && WalletScript(mode)[0] == CreateSession && WalletOwnsSessionAfter(mode) > 0
    {
    }

    static lemma FirstStepFails(mode: Mode, session: Session, leftOver: Option<Session>, before: map<string, Session>)
      ensures Fails(mode, FaultAt(CreateSession))
      ensures StoredAfter(mode, FaultAt(CreateSession), session, leftOver, before) == before - LeftOverId(leftOver)
    {
      FirstIsCreate(mode);
      FaultAtOnce(WalletScript(mode), FaultAt(CreateSession));
    }

    static lemma AnyOutcome(mode: Mode, k: nat, session: Session, leftOver: Option<Session>, before: map<string, Session>)
      ensures var after := StoredAt(mode, k, session, leftOver, before);
        if k < |WalletScript(mode)| then after == before - {session.id} || after == before - LeftOverId(leftOver)
        else after == before[session.id := session]
    {
    }

    // A record under the request's id that is not the left-over session's.
    static predicate OwnRecord(id: string, leftOver: Option<Session>, before: map<string, Session>) {
      id in before && (leftOver.None? || leftOver.value.id != id)
    }

    static lemma CleanAt(mode: Mode, k: nat, session: Session, leftOver: Option<Session>, before: map<string, Session>)
      requires k < |WalletScript(mode)| && !OwnRecord(session.id, leftOver, before)
      ensures session.id !in StoredAt(mode, k, session, leftOver, before)
    {
      AnyOutcome(mode, k, session, leftOver, before);
    }

    static lemma NotCleanAtFirst(mode: Mode, session: Session, leftOver: Option<Session>, before: map<string, Session>)
      requires OwnRecord(session.id, leftOver, before)
      ensures Fails(mode, FaultAt(CreateSession))
      ensures session.id in StoredAfter(mode, FaultAt(CreateSession), session, leftOver, before)
    {
      FirstStepFails(mode, session, leftOver, before);
    }

    /** Before the call one can tell: every failing connect, wherever it fails, leaves nothing under the
        request's id if and only if there was no record there, or it was the left-over session's. */
    static lemma FailedConnectCleansIff(mode: Mode, session: Session, leftOver: Option<Session>, before: map<string, Session>)
      ensures (forall fault: Act -> Fault :: Fails(mode, fault) ==>
                 session.id !in StoredAfter(mode, fault, session, leftOver, before))
        <==> !OwnRecord(session.id, leftOver, before)
    {
      if OwnRecord(session.id, leftOver, before) {
        NotCleanAtFirst(mode, session, leftOver, before);
      } else {
        forall fault: Act -> Fault | Fails(mode, fault) ensures session.id !in StoredAfter(mode, fault, session, leftOver, before) {
          CleanAt(mode, FirstFault(WalletScript(mode), fault), session, leftOver, before);
        }
      }
    }

    // No record of another session is removed or changed.
    static predicate SparesOthers(id: string, before: map<string, Session>, after: map<string, Session>) {
      forall other :: other in before && other != id ==> other in after && after[other] == before[other]
    }

    // Another stored session is left over from a failed reconnect.
    static predicate OtherLeftOver(id: string, leftOver: Option<Session>, before: map<string, Session>) {
      leftOver.Some? && leftOver.value.id != id && leftOver.value.id in before
    }

    static lemma SparedAt(mode: Mode, k: nat, session: Session, leftOver: Option<Session>, before: map<string, Session>)
      requires !OtherLeftOver(session.id, leftOver, before)
      ensures SparesOthers(session.id, before, StoredAt(mode, k, session, leftOver, before))
    {
      AnyOutcome(mode, k, session, leftOver, before);
    }

    static lemma NotSparedAtFirst(mode: Mode, session: Session, leftOver: Option<Session>, before: map<string, Session>)
      requires OtherLeftOver(session.id, leftOver, before)
      ensures !SparesOthers(session.id, before, StoredAfter(mode, FaultAt(CreateSession), session, leftOver, before))
    {
      FirstStepFails(mode, session, leftOver, before);
    }

    /** And every connect leaves all other records alone if and only if no other stored session is left
        over from a failed reconnect. */
    static lemma FailedConnectSparesOthersIff(mode: Mode, session: Session, leftOver: Option<Session>, before: map<string, Session>)
      ensures (forall fault: Act -> Fault :: SparesOthers(session.id, before, StoredAfter(mode, fault, session, leftOver, before)))
        <==> !OtherLeftOver(session.id, leftOver, before)
    {
      if OtherLeftOver(session.id, leftOver, before) {
        NotSparedAtFirst(mode, session, leftOver, before);
      } else {
        forall fault: Act -> Fault ensures SparesOthers(session.id, before, StoredAfter(mode, fault, session, leftOver, before)) {
          SparedAt(mode, FirstFault(WalletScript(mode), fault), session, leftOver, before);
        }
      }
    }

    /** A run that loses another session: it is resumed, a reconnect fails, and the connect to a second
        dApp fails when it opens the transport. */
    static method OtherSessionLost(mode: Mode, first: Session, second: Session) returns (kept: bool)
      requires mode.Untrusted? && first.id != second.id
      ensures !kept
    {
      var base := new BaseClient(map[first.id := first]);
      var wallet := new WalletClient(base);
      var resumed := base.Resume(first.id, true, _ => NoFault);
      var reconnected := base.Reconnect(true);
      var fault := FaultAt(ConnectTransport);
      assert FirstFault(WalletScript(mode), fault) == 1;
      var connected := wallet.Connect(mode, false, second, fault);
      kept := first.id in base.stored;
    }
  }
}
