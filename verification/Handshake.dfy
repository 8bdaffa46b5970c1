// The two-party handshake: any number of dApp connect runs (successive attempts, or several dApps),
// any number of honest wallets scanning any of their requests, and a relay that may repeat any
// message on any channel (packages/dapp-client/src, packages/wallet-client/src, core/src/base-client.ts).

module ChannelNames {
  const SESSION_PREFIX := "session:"

  // str.replace(pattern, ""): the first occurrence only.
  function RemoveFirst(s: string, pattern: string): string
    decreases |s|
  {
    if pattern <= s then s[|pattern|..]
    else if s == "" then s
    else [s[0]] + RemoveFirst(s[1..], pattern)
  }

  function SessionChannel(uuid: string): string { SESSION_PREFIX + uuid }
  function ChannelId(channel: string): string { RemoveFirst(channel, SESSION_PREFIX) }

  /** What the wallet strips from its channel name, the dApp puts back: for every uuid, even one
      that contains the prefix again. */
  lemma StripThenPrefix(uuid: string)
    ensures ChannelId(SessionChannel(uuid)) == uuid
    ensures SessionChannel(ChannelId(SessionChannel(uuid))) == SessionChannel(uuid)
  {
    assert SessionChannel(uuid)[|SESSION_PREFIX|..] == uuid;
  }
}

module Handshake {
  import opened Wrappers
  import opened ConnectScripts
  import opened ChannelNames
  import Otp
  import C = ConstantTime

  // Key pairs are fresh: each run has its own.
  datatype Key = DappKey(run: nat) | WalletKey(run: nat)

  datatype Body = Offer(key: Key, channelId: string, otp: C.Utf16) | Ack | App(payload: string)

  // A sealed message: only the owner of `to` can open it, and the relay can only copy it.
  datatype Sealed = Sealed(to: Key, body: Body)

  datatype Request = Request(id: string, mode: Mode, channel: string, key: Key)

  datatype Session = Session(id: string, channel: string, key: Key, theirKey: Key)

  // `step` counts the steps of the script done so far; all of them done is CONNECTED.
  datatype DappRun = DappRun(
    request: Request, step: nat, failed: bool, offer: Option<Body>, inputs: seq<Otp.Input>, final: Option<Session>,
    subscribedAt: Option<nat>)

  datatype WalletRun = WalletRun(
    dapp: nat, request: Request, step: nat, failed: bool, session: Session, otp: C.Utf16, subscribedAt: Option<nat>)

  type Logs = map<string, seq<Sealed>>

  datatype World = World(dapps: seq<DappRun>, wallets: seq<WalletRun>, logs: Logs, uuids: set<string>)

  const EMPTY := World([], [], map[], {})

  datatype Event =
    | NewRequest(mode: Mode, id: string)
    | Scan(d: nat, uuid: string, otp: C.Utf16)
    | DappStep(d: nat)
    | DappReceive(d: nat, channel: string, k: nat)
    | DappInput(d: nat, input: Otp.Input)
    | DappFail(d: nat)
    | DappSend(d: nat, payload: string)
    | WalletStep(w: nat)
    | WalletReceive(w: nat, channel: string, k: nat)
    | WalletFail(w: nat)
    | WalletSend(w: nat, payload: string)
    | Replay(channel: string, k: nat, to: string)

  function At(logs: Logs, channel: string): seq<Sealed> { if channel in logs then logs[channel] else [] }
  function Append(logs: Logs, channel: string, e: Sealed): Logs { logs[channel := At(logs, channel) + [e]] }

  function DappEnd(r: DappRun): nat { |DappScript(r.request.mode)| }
  function WalletEnd(r: WalletRun): nat { |WalletScript(r.request.mode)| }

  predicate DappAt(r: DappRun, act: Act) { !r.failed && r.step < DappEnd(r) && DappScript(r.request.mode)[r.step] == act }
  predicate WalletAt(r: WalletRun, act: Act) { !r.failed && r.step < WalletEnd(r) && WalletScript(r.request.mode)[r.step] == act }

  predicate DappConnected(r: DappRun) { !r.failed && r.step == DappEnd(r) }
  predicate WalletConnected(r: WalletRun) { !r.failed && r.step == WalletEnd(r) }

  // ---- Steps ----

  function SetDapp(world: World, d: nat, r: DappRun): World
    requires d < |world.dapps|
  {
    world.(dapps := world.dapps[d := r])
  }

  function SetWallet(world: World, w: nat, r: WalletRun): World
    requires w < |world.wallets|
  {
    world.(wallets := world.wallets[w := r])
  }

  function Prompt(r: DappRun): Otp.Prompt
    requires r.offer.Some? && r.offer.value.Offer?
  {
    Otp.Run(Otp.Start(r.offer.value.otp), r.inputs)
  }

  function FinalSession(request: Request, offer: Body): Session
    requires offer.Offer?
  {
    Session(request.id, SessionChannel(offer.channelId), request.key, offer.key)
  }

  // The steps the dApp takes by itself. Waiting for the offer and for the user are separate events.
  function StepDapp(world: World, d: nat): World
    requires d < |world.dapps|
  {
    var r := world.dapps[d];
    var next := r.(step := r.step + 1);
    if r.failed || r.step >= DappEnd(r) then world
    else
      match DappScript(r.request.mode)[r.step]
      case AwaitOffer => world
      case EnterOtp => world
      case FinalizeSession =>
        if r.offer.Some? && r.offer.value.Offer?
        then SetDapp(world, d, next.(final := Some(FinalSession(r.request, r.offer.value))))
        else world
      case SubscribeSession =>
        if r.final.Some?
        then SetDapp(world, d, next.(subscribedAt := Some(|At(world.logs, r.final.value.channel)|)))
        else world
      case SendAck =>
        if r.final.Some?
        then SetDapp(world, d, next).(logs := Append(world.logs, r.final.value.channel, Sealed(r.final.value.theirKey, Ack)))
        else world
      case _ => SetDapp(world, d, next)
  }

  function StepWallet(world: World, w: nat): World
    requires w < |world.wallets|
  {
    var r := world.wallets[w];
    var next := r.(step := r.step + 1);
    if r.failed || r.step >= WalletEnd(r) then world
    else
      match WalletScript(r.request.mode)[r.step]
      case AwaitAck => world
      case SubscribeSession => SetWallet(world, w, next.(subscribedAt := Some(|At(world.logs, r.session.channel)|)))
      case SendOffer =>
        SetWallet(world, w, next).(logs := Append(world.logs, r.request.channel,
          Sealed(r.request.key, Offer(r.session.key, ChannelId(r.session.channel), r.otp))))
      case _ => SetWallet(world, w, next)
  }

  // An incoming message counts only if it opens with this run's key and the run is waiting for it.
  function ReceiveDapp(world: World, d: nat, e: Sealed): World
    requires d < |world.dapps|
  {
    var r := world.dapps[d];
    if DappAt(r, AwaitOffer) && e.to == r.request.key && e.body.Offer?
    then SetDapp(world, d, r.(step := r.step + 1, offer := Some(e.body)))
    else world
  }

  function ReceiveWallet(world: World, w: nat, e: Sealed): World
    requires w < |world.wallets|
  {
    var r := world.wallets[w];
    if WalletAt(r, AwaitAck) && e.to == r.session.key && e.body.Ack?
    then SetWallet(world, w, r.(step := r.step + 1))
    else world
  }

  // The user submits or cancels. An offer without OTP is refused before the prompt.
  function InputDapp(world: World, d: nat, input: Otp.Input): World
    requires d < |world.dapps|
  {
    var r := world.dapps[d];
    if DappAt(r, EnterOtp) && r.offer.Some? && r.offer.value.Offer? && r.offer.value.otp != []
    then
      var r' := r.(inputs := r.inputs + [input]);
      match Prompt(r').outcome
      case Pending => SetDapp(world, d, r')
      case Accepted => SetDapp(world, d, r'.(step := r.step + 1))
      case _ => SetDapp(world, d, r'.(failed := true))
    else world
  }

  function Step(world: World, ev: Event): World {
    match ev
    case NewRequest(mode, id) =>
      if id in world.uuids then world
      else world.(uuids := world.uuids + {id},
                  dapps := world.dapps + [DappRun(
                    Request(id, mode, "handshake:" + id, DappKey(|world.dapps|)), 0, false, None, [], None, None)])
    case Scan(d, uuid, otp) =>
      if uuid in world.uuids || d >= |world.dapps| then world
      else
        var request := world.dapps[d].request;
        world.(uuids := world.uuids + {uuid},
               wallets := world.wallets + [WalletRun(d, request, 1, false,
                 Session(request.id, SessionChannel(uuid), WalletKey(|world.wallets|), request.key), otp, None)])
    case DappStep(d) => if d < |world.dapps| then StepDapp(world, d) else world
    case DappReceive(d, channel, k) =>
      if d < |world.dapps| && k < |At(world.logs, channel)| then ReceiveDapp(world, d, At(world.logs, channel)[k]) else world
    case DappInput(d, input) => if d < |world.dapps| then InputDapp(world, d, input) else world
    case DappFail(d) => if d < |world.dapps| then SetDapp(world, d, world.dapps[d].(failed := true)) else world
    case DappSend(d, payload) =>
      if d < |world.dapps| && DappConnected(world.dapps[d]) && world.dapps[d].final.Some?
      then
        var s := world.dapps[d].final.value;
        world.(logs := Append(world.logs, s.channel, Sealed(s.theirKey, App(payload))))
      else world
    case WalletStep(w) => if w < |world.wallets| then StepWallet(world, w) else world
    case WalletReceive(w, channel, k) =>
      if w < |world.wallets| && k < |At(world.logs, channel)| then ReceiveWallet(world, w, At(world.logs, channel)[k]) else world
    case WalletFail(w) => if w < |world.wallets| then SetWallet(world, w, world.wallets[w].(failed := true)) else world
    case WalletSend(w, payload) =>
      if w < |world.wallets| && WalletConnected(world.wallets[w])
      then
        var s := world.wallets[w].session;
        world.(logs := Append(world.logs, s.channel, Sealed(s.theirKey, App(payload))))
      else world
    case Replay(channel, k, to) =>
      if k < |At(world.logs, channel)| then world.(logs := Append(world.logs, to, At(world.logs, channel)[k])) else world
  }

  function Run(evs: seq<Event>): World {
    if evs == [] then EMPTY else Step(Run(evs[..|evs| - 1]), evs[|evs| - 1])
  }

  // ---- What the scripts fix ----

  // Positions in the scripts: after how many steps the dApp has an offer, an accepted OTP, a final
  // session, a subscription to its channel and an acknowledgement sent; the wallet a subscription, an offer
  // sent and an acknowledgement.
  const HAS_OFFER := 3
  const HAS_OTP := 4
  function HasFinal(mode: Mode): nat { if mode.Untrusted? then 5 else 4 }
  const DAPP_SUBSCRIBED := 6
  const HAS_ACKED := 7
  const WALLET_SUBSCRIBED := 4
  const OFFER_SENT := 5
  const ACK_RECEIVED := 6

  lemma DappPositions(mode: Mode, i: nat)
    requires i < |DappScript(mode)|
    ensures DappScript(mode)[i] == AwaitOffer <==> i == HAS_OFFER - 1
    ensures DappScript(mode)[i] == EnterOtp <==> mode.Untrusted? && i == HAS_OTP - 1
    ensures DappScript(mode)[i] == FinalizeSession <==> i == HasFinal(mode) - 1
    ensures DappScript(mode)[i] == SubscribeSession <==> i == DAPP_SUBSCRIBED - 1
    ensures DappScript(mode)[i] == SendAck <==> mode.Untrusted? && i == HAS_ACKED - 1
    ensures |DappScript(mode)| == if mode.Untrusted? then 9 else 7
  {
  }

  lemma WalletPositions(mode: Mode, i: nat)
    requires i < |WalletScript(mode)|
    ensures WalletScript(mode)[i] == SubscribeSession <==> i == WALLET_SUBSCRIBED - 1
    ensures WalletScript(mode)[i] == SendOffer <==> i == OFFER_SENT - 1
    ensures WalletScript(mode)[i] == AwaitAck <==> mode.Untrusted? && i == ACK_RECEIVED - 1
    ensures |WalletScript(mode)| == if mode.Untrusted? then 8 else 7
  {
  }

  // ---- The invariant ----

  // The two sessions are two ends of one: same id, same channel, each side's peer key is the other's key.
  predicate Mirrors(dapp: Session, wallet: Session) {
    dapp.id == wallet.id && dapp.channel == wallet.channel && dapp.key == wallet.theirKey && dapp.theirKey == wallet.key
  }

  // The offer of wallet run w, which that wallet made for its request after subscribing.
  ghost predicate OfferOf(world: World, to: Key, body: Body, w: nat) {
    && w < |world.wallets|
    && var r := world.wallets[w];
    && body == Offer(WalletKey(w), ChannelId(r.session.channel), r.otp)
    && to == r.request.key
    && r.step >= OFFER_SENT && r.subscribedAt.Some?
  }

  // The dApp run took the offer of wallet run w.
  ghost predicate Took(world: World, d: nat, w: nat) {
    && d < |world.dapps|
    && world.dapps[d].offer.Some?
    && OfferOf(world, world.dapps[d].request.key, world.dapps[d].offer.value, w)
  }

  // The dApp run has sent its acknowledgement to wallet run w, whose OTP its user had entered.
  ghost predicate Acknowledged(world: World, d: nat, w: nat) {
    && Took(world, d, w) && world.wallets[w].dapp == d
    && world.dapps[d].request.mode.Untrusted?
    && world.dapps[d].step >= HAS_ACKED
    && Otp.Run(Otp.Start(world.wallets[w].otp), world.dapps[d].inputs).outcome.Accepted?
    && world.dapps[d].final.Some? && Mirrors(world.dapps[d].final.value, world.wallets[w].session)
  }

  ghost predicate EntryOk(world: World, e: Sealed) {
    match e.body
    case Offer(key, _, _) => key.WalletKey? && OfferOf(world, e.to, e.body, key.run)
    case Ack => e.to.WalletKey? && e.to.run < |world.wallets| && Acknowledged(world, world.wallets[e.to.run].dapp, e.to.run)
    case App(_) =>
      && (e.to.WalletKey? ==> e.to.run < |world.wallets| && world.wallets[e.to.run].subscribedAt.Some?
                              && Took(world, world.wallets[e.to.run].dapp, e.to.run))
      && (e.to.DappKey? ==> e.to.run < |world.dapps|
                            && (world.dapps[e.to.run].request.mode.Untrusted? ==> world.dapps[e.to.run].step >= HAS_ACKED))
  }

  ghost predicate LogsOk(world: World) {
    forall channel, k {:trigger At(world.logs, channel)[k]} :: 0 <= k < |At(world.logs, channel)| ==>
      EntryOk(world, At(world.logs, channel)[k])
  }

  ghost predicate DappOk(world: World, d: nat)
    requires d < |world.dapps|
  {
    var r := world.dapps[d];
    && r.request.key == DappKey(d)
    && r.step <= DappEnd(r)
    && (r.offer.Some? <==> r.step >= HAS_OFFER)
    && (r.offer.Some? ==> r.offer.value.Offer? && r.offer.value.key.WalletKey? && Took(world, d, r.offer.value.key.run))
    && (r.final.Some? <==> r.step >= HasFinal(r.request.mode))
    && (r.final.Some? ==> r.offer.Some? && r.offer.value.Offer? && r.final.value == FinalSession(r.request, r.offer.value))
    && (r.subscribedAt.Some? <==> r.step >= DAPP_SUBSCRIBED)
    && (r.step < HAS_OFFER ==> r.inputs == [])
    && (r.request.mode.Untrusted? && r.step == HAS_OFFER ==>
          !Prompt(r).outcome.Accepted? && (!r.failed ==> Prompt(r).outcome.Pending?))
    && (r.request.mode.Untrusted? && r.step >= HAS_OTP ==> Prompt(r).outcome.Accepted? && r.offer.value.otp != [])
  }

  ghost predicate WalletOk(world: World, w: nat)
    requires w < |world.wallets|
  {
    var r := world.wallets[w];
    && r.dapp < |world.dapps| && r.request == world.dapps[r.dapp].request
    && 1 <= r.step <= WalletEnd(r)
    && r.session.id == r.request.id && r.session.key == WalletKey(w) && r.session.theirKey == r.request.key
    && (exists uuid :: uuid in world.uuids && r.session.channel == SessionChannel(uuid))
    && (r.subscribedAt.Some? <==> r.step >= WALLET_SUBSCRIBED)
    && (r.request.mode.Untrusted? && r.step >= ACK_RECEIVED ==> Acknowledged(world, r.dapp, w))
  }

  ghost predicate Inv(world: World) {
    && LogsOk(world)
    && (forall d :: 0 <= d < |world.dapps| ==> DappOk(world, d))
    && (forall w :: 0 <= w < |world.wallets| ==> WalletOk(world, w))
  }

  // ---- Growth: nothing that was established is taken back ----

  ghost predicate DappGrows(r: DappRun, r': DappRun) {
    && r'.request == r.request && r.step <= r'.step
    && (r.offer.Some? ==> r'.offer == r.offer)
    && (r.final.Some? ==> r'.final == r.final)
    && (r.subscribedAt.Some? ==> r'.subscribedAt == r.subscribedAt)
    && (r.step >= HAS_OTP ==> r'.inputs == r.inputs)
  }

  ghost predicate WalletGrows(r: WalletRun, r': WalletRun) {
    && r'.dapp == r.dapp && r'.request == r.request && r'.session == r.session && r'.otp == r.otp && r.step <= r'.step
    && (r.subscribedAt.Some? ==> r'.subscribedAt == r.subscribedAt)
  }

  ghost predicate Grows(a: World, b: World) {
    && |a.dapps| <= |b.dapps| && |a.wallets| <= |b.wallets| && a.uuids <= b.uuids
    && (forall d :: 0 <= d < |a.dapps| ==> DappGrows(a.dapps[d], b.dapps[d]))
    && (forall w :: 0 <= w < |a.wallets| ==> WalletGrows(a.wallets[w], b.wallets[w]))
  }

  lemma TookGrows(a: World, b: World, d: nat, w: nat)
    requires Grows(a, b) && Took(a, d, w)
    ensures Took(b, d, w)
  {
    assert DappGrows(a.dapps[d], b.dapps[d]) && WalletGrows(a.wallets[w], b.wallets[w]);
  }

  lemma AcknowledgedGrows(a: World, b: World, d: nat, w: nat)
    requires Grows(a, b) && Acknowledged(a, d, w)
    ensures Acknowledged(b, d, w)
  {
    TookGrows(a, b, d, w);
    assert DappGrows(a.dapps[d], b.dapps[d]) && WalletGrows(a.wallets[w], b.wallets[w]);
  }

  lemma EntryGrows(a: World, b: World, e: Sealed)
    requires Grows(a, b) && EntryOk(a, e)
    ensures EntryOk(b, e)
  {
    match e.body
    case Offer(key, _, _) => assert WalletGrows(a.wallets[key.run], b.wallets[key.run]);
    case Ack =>
      assert WalletGrows(a.wallets[e.to.run], b.wallets[e.to.run]);
      AcknowledgedGrows(a, b, a.wallets[e.to.run].dapp, e.to.run);
    case App(_) =>
      if e.to.WalletKey? {
        assert WalletGrows(a.wallets[e.to.run], b.wallets[e.to.run]);
        TookGrows(a, b, a.wallets[e.to.run].dapp, e.to.run);
      } else {
        assert DappGrows(a.dapps[e.to.run], b.dapps[e.to.run]);
      }
  }

  // The logs are those of a, plus possibly one entry that is fine in b.
  lemma LogsGrow(a: World, b: World, channel: string, e: Sealed)
    requires LogsOk(a) && Grows(a, b)
    requires b.logs == a.logs || (b.logs == Append(a.logs, channel, e) && EntryOk(b, e))
    ensures LogsOk(b)
  {
    forall ch, k {:trigger At(b.logs, ch)[k]} | 0 <= k < |At(b.logs, ch)| ensures EntryOk(b, At(b.logs, ch)[k]) {
      if k < |At(a.logs, ch)| {
        assert At(b.logs, ch)[k] == At(a.logs, ch)[k];
        EntryGrows(a, b, At(a.logs, ch)[k]);
      }
    }
  }

  lemma DappUnchanged(a: World, b: World, d: nat)
    requires Grows(a, b) && d < |a.dapps| && DappOk(a, d) && b.dapps[d] == a.dapps[d]
    ensures DappOk(b, d)
  {
    var r := a.dapps[d];
    if r.offer.Some? { TookGrows(a, b, d, r.offer.value.key.run); }
  }

  lemma WalletUnchanged(a: World, b: World, w: nat)
    requires Grows(a, b) && w < |a.wallets| && WalletOk(a, w) && b.wallets[w] == a.wallets[w]
    ensures WalletOk(b, w)
  {
    var r := a.wallets[w];
    assert DappGrows(a.dapps[r.dapp], b.dapps[r.dapp]);
    if r.request.mode.Untrusted? && r.step >= ACK_RECEIVED { AcknowledgedGrows(a, b, r.dapp, w); }
    var uuid :| uuid in a.uuids && r.session.channel == SessionChannel(uuid);
    assert uuid in b.uuids;
  }

  // Only dApp run d changed, and perhaps one entry was appended.
  lemma OneDappChanged(a: World, b: World, d: nat, channel: string, e: Sealed)
    requires Inv(a) && d < |a.dapps| && |b.dapps| == |a.dapps| && b.wallets == a.wallets && b.uuids == a.uuids
    requires forall j :: 0 <= j < |a.dapps| && j != d ==> b.dapps[j] == a.dapps[j]
    requires DappGrows(a.dapps[d], b.dapps[d]) && DappOk(b, d)
    requires b.logs == a.logs || (b.logs == Append(a.logs, channel, e) && EntryOk(b, e))
    ensures Inv(b)
  {
    assert Grows(a, b);
    LogsGrow(a, b, channel, e);
    forall j | 0 <= j < |b.dapps| ensures DappOk(b, j) { if j != d { DappUnchanged(a, b, j); } }
    forall w | 0 <= w < |b.wallets| ensures WalletOk(b, w) { WalletUnchanged(a, b, w); }
  }

  lemma OneWalletChanged(a: World, b: World, w: nat, channel: string, e: Sealed)
    requires Inv(a) && w < |a.wallets| && |b.wallets| == |a.wallets| && b.dapps == a.dapps && b.uuids == a.uuids
    requires forall j :: 0 <= j < |a.wallets| && j != w ==> b.wallets[j] == a.wallets[j]
    requires WalletGrows(a.wallets[w], b.wallets[w]) && WalletOk(b, w)
    requires b.logs == a.logs || (b.logs == Append(a.logs, channel, e) && EntryOk(b, e))
    ensures Inv(b)
  {
    assert Grows(a, b);
    LogsGrow(a, b, channel, e);
    forall d | 0 <= d < |b.dapps| ensures DappOk(b, d) { DappUnchanged(a, b, d); }
    forall j | 0 <= j < |b.wallets| ensures WalletOk(b, j) { if j != w { WalletUnchanged(a, b, j); } }
  }

  lemma OnlyLogs(a: World, channel: string, e: Sealed)
    requires Inv(a) && EntryOk(a, e)
    ensures Inv(a.(logs := Append(a.logs, channel, e)))
  {
    var b := a.(logs := Append(a.logs, channel, e));
    assert Grows(a, b);
    EntryGrows(a, b, e);
    LogsGrow(a, b, channel, e);
    forall d | 0 <= d < |b.dapps| ensures DappOk(b, d) { DappUnchanged(a, b, d); }
    forall w | 0 <= w < |b.wallets| ensures WalletOk(b, w) { WalletUnchanged(a, b, w); }
  }

  // ---- Every event keeps the invariant ----

  // The final session made from a wallet's offer mirrors that wallet's session.
  lemma FinalMirrors(world: World, d: nat, w: nat)
    requires Inv(world) && Took(world, d, w) && world.dapps[d].final.Some?
    ensures world.wallets[w].dapp == d
    ensures Mirrors(world.dapps[d].final.value, world.wallets[w].session)
  {
    assert DappOk(world, d) && WalletOk(world, w);
    var r := world.wallets[w];
    assert DappOk(world, r.dapp);
    var uuid :| uuid in world.uuids && r.session.channel == SessionChannel(uuid);
    StripThenPrefix(uuid);
  }

  // A step of the dApp that publishes nothing.
  lemma SilentStepOk(world: World, d: nat)
    requires d < |world.dapps| && DappOk(world, d) && !world.dapps[d].failed && world.dapps[d].step < DappEnd(world.dapps[d])
    requires DappScript(world.dapps[d].request.mode)[world.dapps[d].step] !in {AwaitOffer, EnterOtp, SendAck}
    ensures DappGrows(world.dapps[d], StepDapp(world, d).dapps[d]) && DappOk(StepDapp(world, d), d)
    ensures StepDapp(world, d).logs == world.logs
  {
    var r := world.dapps[d];
    DappPositions(r.request.mode, r.step);
    if r.offer.Some? { TookGrowsStep(world, StepDapp(world, d), d, r.offer.value.key.run); }
  }

  lemma StepDappKeepsInv(world: World, d: nat)
    requires Inv(world) && d < |world.dapps|
    ensures Inv(StepDapp(world, d))
  {
    var r, world' := world.dapps[d], StepDapp(world, d);
    assert DappOk(world, d);
    if !r.failed && r.step < DappEnd(r) {
      DappPositions(r.request.mode, r.step);
      var act := DappScript(r.request.mode)[r.step];
      if act == SendAck {
        AckKeepsInv(world, d);
      } else if act != AwaitOffer && act != EnterOtp {
        SilentStepOk(world, d);
        OneDappChanged(world, world', d, "", Sealed(DappKey(0), Ack));
      }
    }
  }

  lemma TookGrowsStep(a: World, b: World, d: nat, w: nat)
    requires Took(a, d, w) && d < |b.dapps| && b.dapps[d].request == a.dapps[d].request && b.dapps[d].offer == a.dapps[d].offer
    requires b.wallets == a.wallets
    ensures Took(b, d, w)
  {
  }

  lemma AckKeepsInv(world: World, d: nat)
    requires Inv(world) && d < |world.dapps| && DappAt(world.dapps[d], SendAck)
    ensures Inv(StepDapp(world, d))
  {
    var r, world' := world.dapps[d], StepDapp(world, d);
    assert DappOk(world, d);
    DappPositions(r.request.mode, r.step);
    var w := r.offer.value.key.run;
    FinalMirrors(world, d, w);
    TookGrowsStep(world, world', d, w);
    assert Acknowledged(world', d, w);
    OneDappChanged(world, world', d, r.final.value.channel, Sealed(r.final.value.theirKey, Ack));
  }

  lemma ReceiveDappKeepsInv(world: World, d: nat, e: Sealed)
    requires Inv(world) && d < |world.dapps| && EntryOk(world, e)
    ensures Inv(ReceiveDapp(world, d, e))
  {
    var r, world' := world.dapps[d], ReceiveDapp(world, d, e);
    assert DappOk(world, d);
    if DappAt(r, AwaitOffer) && e.to == r.request.key && e.body.Offer? {
      DappPositions(r.request.mode, r.step);
      assert Took(world', d, e.body.key.run);
      OneDappChanged(world, world', d, "", e);
    }
  }

  lemma InputDappKeepsInv(world: World, d: nat, input: Otp.Input)
    requires Inv(world) && d < |world.dapps|
    ensures Inv(InputDapp(world, d, input))
  {
    var r, world' := world.dapps[d], InputDapp(world, d, input);
    assert DappOk(world, d);
    if DappAt(r, EnterOtp) && r.offer.Some? && r.offer.value.Offer? && r.offer.value.otp != [] {
      DappPositions(r.request.mode, r.step);
      TookGrowsStep(world, world', d, r.offer.value.key.run);
      OneDappChanged(world, world', d, "", Sealed(DappKey(0), Ack));
    }
  }

  lemma AcknowledgedStays(a: World, b: World, d: nat, w: nat)
    requires Acknowledged(a, d, w) && b.dapps == a.dapps && w < |b.wallets| && WalletGrows(a.wallets[w], b.wallets[w])
    ensures Acknowledged(b, d, w)
  {
  }

  lemma StepWalletKeepsInv(world: World, w: nat)
    requires Inv(world) && w < |world.wallets|
    ensures Inv(StepWallet(world, w))
  {
    var r, world' := world.wallets[w], StepWallet(world, w);
    assert WalletOk(world, w);
    if !r.failed && r.step < WalletEnd(r) {
      WalletPositions(r.request.mode, r.step);
      if WalletScript(r.request.mode)[r.step] != AwaitAck {
        assert WalletGrows(r, world'.wallets[w]);
        if r.request.mode.Untrusted? && r.step >= ACK_RECEIVED { AcknowledgedStays(world, world', r.dapp, w); }
        OneWalletChanged(world, world', w, r.request.channel,
          Sealed(r.request.key, Offer(r.session.key, ChannelId(r.session.channel), r.otp)));
      }
    }
  }

  lemma ReceiveWalletKeepsInv(world: World, w: nat, e: Sealed)
    requires Inv(world) && w < |world.wallets| && EntryOk(world, e)
    ensures Inv(ReceiveWallet(world, w, e))
  {
    var r, world' := world.wallets[w], ReceiveWallet(world, w, e);
    assert WalletOk(world, w);
    if WalletAt(r, AwaitAck) && e.to == r.session.key && e.body.Ack? {
      WalletPositions(r.request.mode, r.step);
      assert Grows(world, world');
      AcknowledgedGrows(world, world', r.dapp, w);
      OneWalletChanged(world, world', w, "", e);
    }
  }

  lemma NewRequestKeepsInv(world: World, mode: Mode, id: string)
    requires Inv(world)
    ensures Inv(Step(world, NewRequest(mode, id)))
  {
    var world' := Step(world, NewRequest(mode, id));
    if id !in world.uuids {
      assert Grows(world, world');
      LogsGrow(world, world', "", Sealed(DappKey(0), Ack));
      forall d | 0 <= d < |world'.dapps| ensures DappOk(world', d) {
        if d < |world.dapps| { DappUnchanged(world, world', d); }
      }
      forall w | 0 <= w < |world'.wallets| ensures WalletOk(world', w) { WalletUnchanged(world, world', w); }
    }
  }

  lemma ScanKeepsInv(world: World, d: nat, uuid: string, otp: C.Utf16)
    requires Inv(world)
    ensures Inv(Step(world, Scan(d, uuid, otp)))
  {
    var world' := Step(world, Scan(d, uuid, otp));
    if uuid !in world.uuids && d < |world.dapps| {
      assert Grows(world, world');
      LogsGrow(world, world', "", Sealed(DappKey(0), Ack));
      forall j | 0 <= j < |world'.dapps| ensures DappOk(world', j) { DappUnchanged(world, world', j); }
      forall w | 0 <= w < |world'.wallets| ensures WalletOk(world', w) {
        if w < |world.wallets| {
          WalletUnchanged(world, world', w);
        } else {
          assert uuid in world'.uuids && world'.wallets[w].session.channel == SessionChannel(uuid);
        }
      }
    }
  }

  lemma SendKeepsInv(world: World, ev: Event)
    requires Inv(world) && (ev.DappSend? || ev.WalletSend?)
    ensures Inv(Step(world, ev))
  {
    match ev
    case DappSend(d, payload) =>
      if d < |world.dapps| && DappConnected(world.dapps[d]) && world.dapps[d].final.Some? {
        var s := world.dapps[d].final.value;
        assert DappOk(world, d);
        FinalMirrors(world, d, s.theirKey.run);
        OnlyLogs(world, s.channel, Sealed(s.theirKey, App(payload)));
      }
    case WalletSend(w, payload) =>
      if w < |world.wallets| && WalletConnected(world.wallets[w]) {
        var s := world.wallets[w].session;
        assert WalletOk(world, w) && DappOk(world, world.wallets[w].dapp);
        OnlyLogs(world, s.channel, Sealed(s.theirKey, App(payload)));
      }
  }

  lemma FailKeepsInv(world: World, ev: Event)
    requires Inv(world) && (ev.DappFail? || ev.WalletFail?)
    ensures Inv(Step(world, ev))
  {
    match ev
    case DappFail(d) =>
      if d < |world.dapps| {
        assert DappOk(world, d);
        var r := world.dapps[d];
        if r.offer.Some? { TookGrowsStep(world, Step(world, ev), d, r.offer.value.key.run); }
        OneDappChanged(world, Step(world, ev), d, "", Sealed(DappKey(0), Ack));
      }
    case WalletFail(w) =>
      if w < |world.wallets| {
        var r := world.wallets[w];
        assert WalletOk(world, w);
        assert Grows(world, Step(world, ev));
        if r.request.mode.Untrusted? && r.step >= ACK_RECEIVED { AcknowledgedGrows(world, Step(world, ev), r.dapp, w); }
        OneWalletChanged(world, Step(world, ev), w, "", Sealed(DappKey(0), Ack));
      }
  }

  lemma StepKeepsInv(world: World, ev: Event)
    requires Inv(world)
    ensures Inv(Step(world, ev))
  {
    match ev
    case NewRequest(mode, id) => NewRequestKeepsInv(world, mode, id);
    case Scan(d, uuid, otp) => ScanKeepsInv(world, d, uuid, otp);
    case DappStep(d) => if d < |world.dapps| { StepDappKeepsInv(world, d); }
    case DappReceive(d, channel, k) =>
      if d < |world.dapps| && k < |At(world.logs, channel)| { ReceiveDappKeepsInv(world, d, At(world.logs, channel)[k]); }
    case DappInput(d, input) => if d < |world.dapps| { InputDappKeepsInv(world, d, input); }
    case WalletStep(w) => if w < |world.wallets| { StepWalletKeepsInv(world, w); }
    case WalletReceive(w, channel, k) =>
      if w < |world.wallets| && k < |At(world.logs, channel)| { ReceiveWalletKeepsInv(world, w, At(world.logs, channel)[k]); }
    case Replay(channel, k, to) =>
      if k < |At(world.logs, channel)| { OnlyLogs(world, to, At(world.logs, channel)[k]); }
    case DappFail(_) => FailKeepsInv(world, ev);
    case WalletFail(_) => FailKeepsInv(world, ev);
    case DappSend(_, _) => SendKeepsInv(world, ev);
    case WalletSend(_, _) => SendKeepsInv(world, ev);
  }

  lemma {:induction false} RunKeepsInv(evs: seq<Event>)
    ensures Inv(Run(evs))
  {
    if evs != [] {
      RunKeepsInv(evs[..|evs| - 1]);
      StepKeepsInv(Run(evs[..|evs| - 1]), evs[|evs| - 1]);
    }
  }

  // ---- Theorems about every run ----

  /** Agreement: a connected dApp's session mirrors the session of exactly one wallet run, one that
      scanned this very request and whose offer, the one the dApp took, stands in its handshake channel. */
  lemma Agreement(evs: seq<Event>, d: nat)
    requires d < |Run(evs).dapps| && DappConnected(Run(evs).dapps[d])
    ensures var world := Run(evs);
      && world.dapps[d].final.Some?
      && exists w: nat :: w < |world.wallets| && world.wallets[w].dapp == d
           && Mirrors(world.dapps[d].final.value, world.wallets[w].session)
           && world.dapps[d].offer == Some(OfferBy(world.wallets[w]))
           && Sealed(DappKey(d), OfferBy(world.wallets[w])) in At(world.logs, world.dapps[d].request.channel)
           && forall w': nat :: w' < |world.wallets| && Mirrors(world.dapps[d].final.value, world.wallets[w'].session) ==> w' == w
  {
    RunKeepsInv(evs);
    var world := Run(evs);
    assert DappOk(world, d);
    var w := world.dapps[d].offer.value.key.run;
    FinalMirrors(world, d, w);
    RunKeepsPosted(evs);
    assert OfferPosted(world, w) && WalletOk(world, w);
    forall w': nat | w' < |world.wallets| && Mirrors(world.dapps[d].final.value, world.wallets[w'].session) ensures w' == w {
      assert WalletOk(world, w') && WalletOk(world, w);
    }
  }

  lemma AckStands(evs: seq<Event>, w: nat)
    requires w < |Run(evs).wallets| && Acknowledged(Run(evs), Run(evs).wallets[w].dapp, w)
    ensures var world := Run(evs); var r := world.wallets[w];
      && r.subscribedAt.Some? && r.otp != []
      && exists k :: r.subscribedAt.value <= k < |At(world.logs, r.session.channel)|
           && At(world.logs, r.session.channel)[k] == Sealed(WalletKey(w), Ack)
  {
    RunKeepsInv(evs);
    RunKeepsPosted(evs);
    RunKeepsOrdered(evs);
    var world := Run(evs);
    var r, d := world.wallets[w], world.wallets[w].dapp;
    assert WalletOk(world, w) && DappOk(world, d) && AckPosted(world, d) && QuietBefore(world, w);
    var log := At(world.logs, r.session.channel);
    var k :| 0 <= k < |log| && log[k] == Sealed(WalletKey(w), Ack);
  }

  /** Correspondence: in untrusted mode a wallet is connected only if the dApp whose request it scanned
      accepted that wallet's own OTP, entered by the user within the allowed attempts, holds the
      mirror of its session, and sent the acknowledgement, which stands in the session channel after the
      point at which the wallet subscribed there. */
  lemma UntrustedCorrespondence(evs: seq<Event>, w: nat)
    requires w < |Run(evs).wallets| && WalletConnected(Run(evs).wallets[w]) && Run(evs).wallets[w].request.mode.Untrusted?
    ensures var world := Run(evs); var d := world.wallets[w].dapp;
      && d < |world.dapps| && world.dapps[d].request == world.wallets[w].request
      && Acknowledged(world, d, w)
      && world.wallets[w].otp != []
      && (exists i: nat :: i < |world.dapps[d].inputs| && Otp.AcceptedAt(world.wallets[w].otp, world.dapps[d].inputs, i))
      && world.wallets[w].subscribedAt.Some?
      && exists k :: world.wallets[w].subscribedAt.value <= k < |At(world.logs, world.wallets[w].session.channel)|
           && At(world.logs, world.wallets[w].session.channel)[k] == Sealed(WalletKey(w), Ack)
  {
    RunKeepsInv(evs);
    var world := Run(evs);
    assert WalletOk(world, w);
    AckStands(evs, w);
    Otp.OtpAcceptedIff(world.wallets[w].otp, world.dapps[world.wallets[w].dapp].inputs);
  }

  /** Hence at most one wallet per request is connected in untrusted mode. */
  lemma OneWalletPerRequest(evs: seq<Event>, w1: nat, w2: nat)
    requires w1 < |Run(evs).wallets| && w2 < |Run(evs).wallets|
    requires WalletConnected(Run(evs).wallets[w1]) && WalletConnected(Run(evs).wallets[w2])
    requires Run(evs).wallets[w1].request == Run(evs).wallets[w2].request && Run(evs).wallets[w1].request.mode.Untrusted?
    ensures w1 == w2
  {
    RunKeepsInv(evs);
    var world := Run(evs);
    assert WalletOk(world, w1) && WalletOk(world, w2);
    assert DappOk(world, world.wallets[w1].dapp) && DappOk(world, world.wallets[w2].dapp);
  }

  // An offer is addressed to the dApp whose request it answers.
  lemma OfferTargets(world: World, e: Sealed)
    requires Inv(world) && EntryOk(world, e)
    ensures e.body.Offer? ==> e.to.DappKey?
  {
    if e.body.Offer? {
      var w := e.body.key.run;
      assert WalletOk(world, w) && DappOk(world, world.wallets[w].dapp);
    }
  }

  // ---- The order on one channel ----

  // Nothing addressed to the wallet stands in its session channel before the point it subscribed at.
  ghost predicate QuietBefore(world: World, w: nat)
    requires w < |world.wallets|
  {
    var r := world.wallets[w]; var log := At(world.logs, r.session.channel);
    r.subscribedAt.Some? ==>
      && r.subscribedAt.value <= |log|
      && forall k :: 0 <= k < r.subscribedAt.value ==> log[k].to != WalletKey(w)
  }

  ghost predicate Ordered(world: World) {
    forall w :: 0 <= w < |world.wallets| ==> QuietBefore(world, w)
  }

  lemma LogsOnlyGrow(world: World, ev: Event, channel: string)
    ensures At(world.logs, channel) <= At(Step(world, ev).logs, channel)
  {
  }

  // The wallet run is as it was, or subscribes now, on top of the log as it stands.
  ghost predicate SubscribedAs(world: World, world': World, w: nat)
    requires w < |world.wallets| && w < |world'.wallets|
  {
    var r, r' := world.wallets[w], world'.wallets[w];
    && r'.session == r.session
    && (r'.subscribedAt == r.subscribedAt
        || (r.subscribedAt.None? && world'.logs == world.logs && r'.subscribedAt == Some(|At(world.logs, r.session.channel)|)))
  }

  lemma StepWalletSubscribes(world: World, i: nat, w: nat)
    requires Inv(world) && i < |world.wallets| && w < |world.wallets|
    ensures SubscribedAs(world, StepWallet(world, i), w)
  {
    var r := world.wallets[i];
    assert WalletOk(world, i);
    if !r.failed && r.step < WalletEnd(r) && w == i { WalletPositions(r.request.mode, r.step); }
  }

  lemma DappStepsSpareWallets(world: World, d: nat)
    requires d < |world.dapps|
    ensures StepDapp(world, d).wallets == world.wallets
  {
  }

  lemma ReceivingKeepsSubscription(world: World, i: nat, e: Sealed, w: nat)
    requires i < |world.wallets| && w < |world.wallets|
    ensures SubscribedAs(world, ReceiveWallet(world, i, e), w)
  {
  }

  lemma OthersSpareSubscription(world: World, ev: Event, w: nat)
    requires !ev.WalletStep? && !ev.WalletReceive? && w < |world.wallets|
    ensures w < |Step(world, ev).wallets| && SubscribedAs(world, Step(world, ev), w)
  {
    match ev
    case DappStep(d) => if d < |world.dapps| { DappStepsSpareWallets(world, d); }
    case _ =>
  }

  lemma HowSubscribed(world: World, ev: Event, w: nat)
    requires Inv(world) && w < |Step(world, ev).wallets|
    ensures w < |world.wallets| ==> SubscribedAs(world, Step(world, ev), w)
    ensures w >= |world.wallets| ==> Step(world, ev).wallets[w].subscribedAt.None?
  {
    match ev
    case WalletStep(i) => if i < |world.wallets| { StepWalletSubscribes(world, i, w); }
    case WalletReceive(i, channel, k) =>
      if i < |world.wallets| && k < |At(world.logs, channel)| { ReceivingKeepsSubscription(world, i, At(world.logs, channel)[k], w); }
    case _ => if w < |world.wallets| { OthersSpareSubscription(world, ev, w); }
  }

  lemma StepKeepsOrdered(world: World, ev: Event)
    requires Inv(world) && Ordered(world)
    ensures Ordered(Step(world, ev))
  {
    var world' := Step(world, ev);
    forall w | 0 <= w < |world'.wallets| ensures QuietBefore(world', w) {
      HowSubscribed(world, ev, w);
      if world'.wallets[w].subscribedAt.Some? {
        var channel := world'.wallets[w].session.channel;
        LogsOnlyGrow(world, ev, channel);
        assert QuietBefore(world, w);
        forall k | 0 <= k < world'.wallets[w].subscribedAt.value
          ensures k < |At(world.logs, channel)| && At(world.logs, channel)[k].to != WalletKey(w)
        {
          assert EntryOk(world, At(world.logs, channel)[k]);
          OfferTargets(world, At(world.logs, channel)[k]);
        }
      }
    }
  }

  lemma {:induction false} RunKeepsOrdered(evs: seq<Event>)
    ensures Ordered(Run(evs))
  {
    if evs != [] {
      RunKeepsInv(evs[..|evs| - 1]);
      RunKeepsOrdered(evs[..|evs| - 1]);
      StepKeepsOrdered(Run(evs[..|evs| - 1]), evs[|evs| - 1]);
    }
  }

  /** Subscribe before offer: whatever a dApp has published for a wallet - acknowledgement or message,
      wherever the relay has copied it - that wallet had subscribed to its session channel before, and
      had sent its offer; on the session channel itself it stands after the point of subscription. */
  lemma SubscribedBeforePublication(evs: seq<Event>, channel: string, k: nat)
    requires k < |At(Run(evs).logs, channel)| && At(Run(evs).logs, channel)[k].to.WalletKey?
    ensures var world := Run(evs); var w := At(world.logs, channel)[k].to.run;
      && w < |world.wallets|
      && world.wallets[w].subscribedAt.Some?
      && world.wallets[w].step >= OFFER_SENT
      && Took(world, world.wallets[w].dapp, w)
      && (channel == world.wallets[w].session.channel ==> world.wallets[w].subscribedAt.value <= k)
  {
    RunKeepsInv(evs);
    RunKeepsOrdered(evs);
    var world := Run(evs);
    var e := At(world.logs, channel)[k];
    assert EntryOk(world, e);
    OfferTargets(world, e);
    assert QuietBefore(world, e.to.run);
  }

  // ---- What stands where ----

  function OfferBy(rw: WalletRun): Body { Offer(rw.session.key, ChannelId(rw.session.channel), rw.otp) }

  // The wallet's offer stands in the handshake channel of the request it scanned.
  predicate OfferPosted(world: World, w: nat)
    requires w < |world.wallets|
  {
    var r := world.wallets[w];
    r.step >= OFFER_SENT ==> Sealed(r.request.key, OfferBy(r)) in At(world.logs, r.request.channel)
  }

  // The dApp's acknowledgement stands in the channel of its session.
  predicate AckPosted(world: World, d: nat)
    requires d < |world.dapps|
  {
    var r := world.dapps[d];
    r.request.mode.Untrusted? && r.step >= HAS_ACKED ==>
      r.final.Some? && Sealed(r.final.value.theirKey, Ack) in At(world.logs, r.final.value.channel)
  }

  // Nothing a wallet has published for an untrusted dApp's session stands before the point the dApp subscribed at.
  predicate SilentBefore(world: World, d: nat)
    requires d < |world.dapps|
  {
    var r := world.dapps[d];
    r.request.mode.Untrusted? && r.subscribedAt.Some? ==>
      && r.final.Some? && r.subscribedAt.value <= |At(world.logs, r.final.value.channel)|
      && forall k :: 0 <= k < r.subscribedAt.value ==>
           var e := At(world.logs, r.final.value.channel)[k]; !(e.to == DappKey(d) && e.body.App?)
  }

  ghost predicate Posted(world: World) {
    && (forall w :: 0 <= w < |world.wallets| ==> OfferPosted(world, w))
    && (forall d :: 0 <= d < |world.dapps| ==> AckPosted(world, d) && SilentBefore(world, d))
  }

  lemma StaysIn(log: seq<Sealed>, log': seq<Sealed>, e: Sealed)
    requires log <= log' && e in log
    ensures e in log'
  {
    var k :| 0 <= k < |log| && log[k] == e;
    assert log'[k] == e;
  }

  // How an event may move the wallet run.
  ghost predicate WalletMoves(world: World, ev: Event, world': World, w: nat)
    requires w < |world.wallets| && w < |world'.wallets|
  {
    var r, r' := world.wallets[w], world'.wallets[w];
    && r'.request == r.request && r'.session == r.session && r'.otp == r.otp
    && (r'.step >= OFFER_SENT && r.step < OFFER_SENT ==> ev == WalletStep(w) && WalletAt(r, SendOffer))
  }

  lemma StepWalletMoves(world: World, i: nat, w: nat)
    requires i < |world.wallets| && w < |world.wallets|
    ensures WalletMoves(world, WalletStep(i), StepWallet(world, i), w)
  {
    var r := world.wallets[i];
    if r.step < WalletEnd(r) { WalletPositions(r.request.mode, r.step); }
  }

  lemma ReceivingWalletMoves(world: World, ev: Event, i: nat, e: Sealed, w: nat)
    requires i < |world.wallets| && w < |world.wallets|
    ensures WalletMoves(world, ev, ReceiveWallet(world, i, e), w)
  {
    var r := world.wallets[i];
    if r.step < WalletEnd(r) { WalletPositions(r.request.mode, r.step); }
  }

  lemma OthersSpareWallets(world: World, ev: Event, w: nat)
    requires !ev.WalletStep? && !ev.WalletReceive? && w < |world.wallets|
    ensures w < |Step(world, ev).wallets| && WalletMoves(world, ev, Step(world, ev), w)
  {
    match ev
    case DappStep(d) => if d < |world.dapps| { DappStepsSpareWallets(world, d); }
    case _ =>
  }

  lemma HowWalletMoves(world: World, ev: Event, w: nat)
    requires w < |world.wallets|
    ensures w < |Step(world, ev).wallets| && WalletMoves(world, ev, Step(world, ev), w)
  {
    match ev
    case WalletStep(i) => if i < |world.wallets| { StepWalletMoves(world, i, w); }
    case WalletReceive(i, channel, k) =>
      if i < |world.wallets| && k < |At(world.logs, channel)| { ReceivingWalletMoves(world, ev, i, At(world.logs, channel)[k], w); }
    case _ => OthersSpareWallets(world, ev, w);
  }

  lemma OfferAppended(world: World, w: nat)
    requires w < |world.wallets| && WalletAt(world.wallets[w], SendOffer)
    ensures var r, world' := world.wallets[w], StepWallet(world, w);
      At(world'.logs, r.request.channel) == At(world.logs, r.request.channel) + [Sealed(r.request.key, OfferBy(r))]
  {
  }

  lemma StepKeepsOfferPosted(world: World, ev: Event, w: nat)
    requires Inv(world) && w < |world.wallets| && OfferPosted(world, w)
    ensures w < |Step(world, ev).wallets| && OfferPosted(Step(world, ev), w)
  {
    var r := world.wallets[w];
    HowWalletMoves(world, ev, w);
    if r.step >= OFFER_SENT {
      LogsOnlyGrow(world, ev, r.request.channel);
      StaysIn(At(world.logs, r.request.channel), At(Step(world, ev).logs, r.request.channel), Sealed(r.request.key, OfferBy(r)));
    } else if ev == WalletStep(w) && WalletAt(r, SendOffer) {
      OfferAppended(world, w);
    }
  }

  // How an event may move the dApp run.
  ghost predicate DappMoves(world: World, ev: Event, world': World, d: nat)
    requires d < |world.dapps| && d < |world'.dapps|
  {
    var r, r' := world.dapps[d], world'.dapps[d];
    && r'.request == r.request
    && (r.final.Some? ==> r'.final == r.final)
    && (r'.step >= HAS_ACKED && r.step < HAS_ACKED && r.request.mode.Untrusted? ==> ev == DappStep(d) && DappAt(r, SendAck))
    && (r'.subscribedAt == r.subscribedAt
        || (DappAt(r, SubscribeSession) && r.final.Some? && world'.logs == world.logs && r'.final == r.final
            && r'.subscribedAt == Some(|At(world.logs, r.final.value.channel)|)))
  }

  lemma StepDappMoves(world: World, i: nat, d: nat)
    requires Inv(world) && i < |world.dapps| && d < |world.dapps|
    ensures DappMoves(world, DappStep(i), StepDapp(world, i), d)
  {
    var r := world.dapps[i];
    assert DappOk(world, i);
    if r.step < DappEnd(r) { DappPositions(r.request.mode, r.step); }
  }

  lemma ReceivingDappMoves(world: World, ev: Event, i: nat, e: Sealed, d: nat)
    requires Inv(world) && i < |world.dapps| && d < |world.dapps|
    ensures DappMoves(world, ev, ReceiveDapp(world, i, e), d)
  {
    var r := world.dapps[i];
    assert DappOk(world, i);
    if r.step < DappEnd(r) { DappPositions(r.request.mode, r.step); }
  }

  // An input counts for the prompt alone.
  lemma InputChanges(world: World, i: nat, input: Otp.Input, d: nat)
    requires i < |world.dapps| && d < |world.dapps|
    ensures var world' := InputDapp(world, i, input);
      && world'.logs == world.logs && |world'.dapps| == |world.dapps|
      && var r, r' := world.dapps[d], world'.dapps[d];
      && r'.request == r.request && r'.final == r.final && r'.subscribedAt == r.subscribedAt
      && (r'.step == r.step || (d == i && DappAt(r, EnterOtp) && r'.step == r.step + 1))
  {
  }

  lemma InputDappMoves(world: World, ev: Event, i: nat, input: Otp.Input, d: nat)
    requires i < |world.dapps| && d < |world.dapps|
    ensures DappMoves(world, ev, InputDapp(world, i, input), d)
  {
    var r := world.dapps[d];
    InputChanges(world, i, input, d);
    if r.step < DappEnd(r) { DappPositions(r.request.mode, r.step); }
  }

  lemma OthersSpareDapps(world: World, ev: Event, d: nat)
    requires !ev.DappStep? && !ev.DappReceive? && !ev.DappInput? && d < |world.dapps|
    ensures d < |Step(world, ev).dapps| && DappMoves(world, ev, Step(world, ev), d)
  {
    match ev
    case WalletStep(w) => if w < |world.wallets| { WalletStepsSpareDapps(world, w); }
    case _ =>
  }

  lemma HowDappMoves(world: World, ev: Event, d: nat)
    requires Inv(world) && d < |world.dapps|
    ensures d < |Step(world, ev).dapps| && DappMoves(world, ev, Step(world, ev), d)
  {
    match ev
    case DappStep(i) => if i < |world.dapps| { StepDappMoves(world, i, d); }
    case DappReceive(i, channel, k) =>
      if i < |world.dapps| && k < |At(world.logs, channel)| { ReceivingDappMoves(world, ev, i, At(world.logs, channel)[k], d); }
    case DappInput(i, input) => if i < |world.dapps| { InputDappMoves(world, ev, i, input, d); }
    case _ => OthersSpareDapps(world, ev, d);
  }

  lemma WalletStepsSpareDapps(world: World, w: nat)
    requires w < |world.wallets|
    ensures StepWallet(world, w).dapps == world.dapps
  {
  }

  lemma AckAppended(world: World, d: nat)
    requires Inv(world) && d < |world.dapps| && DappAt(world.dapps[d], SendAck)
    ensures var r, world' := world.dapps[d], StepDapp(world, d);
      && r.final.Some? && world'.dapps[d].final == r.final
      && At(world'.logs, r.final.value.channel) == At(world.logs, r.final.value.channel) + [Sealed(r.final.value.theirKey, Ack)]
  {
    assert DappOk(world, d);
    DappPositions(world.dapps[d].request.mode, world.dapps[d].step);
  }

  lemma StepKeepsAckPosted(world: World, ev: Event, d: nat)
    requires Inv(world) && d < |world.dapps| && AckPosted(world, d)
    ensures d < |Step(world, ev).dapps| && AckPosted(Step(world, ev), d)
  {
    var r := world.dapps[d];
    HowDappMoves(world, ev, d);
    if r.request.mode.Untrusted? && r.step >= HAS_ACKED {
      var s := r.final.value;
      LogsOnlyGrow(world, ev, s.channel);
      StaysIn(At(world.logs, s.channel), At(Step(world, ev).logs, s.channel), Sealed(s.theirKey, Ack));
    } else if ev == DappStep(d) && DappAt(r, SendAck) {
      AckAppended(world, d);
    }
  }

  // An untrusted dApp that has not acknowledged yet has been sent nothing: its wallet is not connected.
  lemma NothingSentYet(world: World, d: nat, channel: string, k: nat)
    requires Inv(world) && d < |world.dapps| && world.dapps[d].request.mode.Untrusted? && world.dapps[d].step < HAS_ACKED
    requires k < |At(world.logs, channel)|
    ensures !(At(world.logs, channel)[k].to == DappKey(d) && At(world.logs, channel)[k].body.App?)
  {
    assert EntryOk(world, At(world.logs, channel)[k]);
  }

  lemma StepKeepsSilentBefore(world: World, ev: Event, d: nat)
    requires Inv(world) && d < |world.dapps| && SilentBefore(world, d)
    ensures d < |Step(world, ev).dapps| && SilentBefore(Step(world, ev), d)
  {
    var r, world' := world.dapps[d], Step(world, ev);
    HowDappMoves(world, ev, d);
    assert DappOk(world, d);
    if r.request.mode.Untrusted? && r.final.Some? {
      var channel := r.final.value.channel;
      LogsOnlyGrow(world, ev, channel);
      if world'.dapps[d].subscribedAt != r.subscribedAt {
        DappPositions(r.request.mode, r.step);
        forall k | 0 <= k < |At(world.logs, channel)|
          ensures var e := At(world.logs, channel)[k]; !(e.to == DappKey(d) && e.body.App?)
        {
          NothingSentYet(world, d, channel, k);
        }
      }
    }
  }

  lemma NoNewRuns(world: World, ev: Event)
    requires !ev.NewRequest? && !ev.Scan?
    ensures |Step(world, ev).wallets| == |world.wallets| && |Step(world, ev).dapps| == |world.dapps|
  {
    match ev
    case DappStep(d) => if d < |world.dapps| { assert |StepDapp(world, d).dapps| == |world.dapps|; }
    case WalletStep(w) => if w < |world.wallets| { assert |StepWallet(world, w).wallets| == |world.wallets|; }
    case _ =>
  }

  lemma NewRunsPosted(world: World, ev: Event)
    ensures forall w :: |world.wallets| <= w < |Step(world, ev).wallets| ==> OfferPosted(Step(world, ev), w)
    ensures forall d :: |world.dapps| <= d < |Step(world, ev).dapps| ==>
      AckPosted(Step(world, ev), d) && SilentBefore(Step(world, ev), d)
  {
    if !ev.NewRequest? && !ev.Scan? { NoNewRuns(world, ev); }
  }

  lemma StepKeepsPosted(world: World, ev: Event)
    requires Inv(world) && Posted(world)
    ensures Posted(Step(world, ev))
  {
    var world' := Step(world, ev);
    NewRunsPosted(world, ev);
    forall w | 0 <= w < |world'.wallets| ensures OfferPosted(world', w) {
      if w < |world.wallets| { StepKeepsOfferPosted(world, ev, w); }
    }
    forall d | 0 <= d < |world'.dapps| ensures AckPosted(world', d) && SilentBefore(world', d) {
      if d < |world.dapps| {
        StepKeepsAckPosted(world, ev, d);
        StepKeepsSilentBefore(world, ev, d);
      }
    }
  }

  lemma {:induction false} RunKeepsPosted(evs: seq<Event>)
    ensures Posted(Run(evs))
  {
    if evs != [] {
      RunKeepsInv(evs[..|evs| - 1]);
      RunKeepsPosted(evs[..|evs| - 1]);
      StepKeepsPosted(Run(evs[..|evs| - 1]), evs[|evs| - 1]);
    }
  }

  lemma DappSendAppends(world: World, d: nat, payload: string, channel: string)
    requires d < |world.dapps| && DappConnected(world.dapps[d]) && world.dapps[d].final.Some?
    ensures var s := world.dapps[d].final.value;
      At(Step(world, DappSend(d, payload)).logs, channel) == At(world.logs, channel)
        + if channel == s.channel then [Sealed(s.theirKey, App(payload))] else []
  {
  }

  /** What a connected dApp sends is appended to the session channel of the one wallet it mirrors, sealed to
      that wallet, and to no other channel. */
  lemma DappMessageReaches(evs: seq<Event>, d: nat, payload: string, channel: string)
    requires d < |Run(evs).dapps| && DappConnected(Run(evs).dapps[d])
    ensures var world, after := Run(evs), Run(evs + [DappSend(d, payload)]);
      && world.dapps[d].final.Some?
      && exists w: nat :: w < |world.wallets| && world.wallets[w].dapp == d
           && Mirrors(world.dapps[d].final.value, world.wallets[w].session)
           && At(after.logs, channel) == At(world.logs, channel)
                + if channel == world.wallets[w].session.channel then [Sealed(WalletKey(w), App(payload))] else []
  {
    var world := Run(evs);
    RunKeepsInv(evs);
    RunMore(evs, DappSend(d, payload));
    assert DappOk(world, d);
    DappSendAppends(world, d, payload, channel);
    var w := world.dapps[d].offer.value.key.run;
    FinalMirrors(world, d, w);
    assert WalletOk(world, w);
  }

  lemma WalletSendAppends(world: World, w: nat, payload: string, channel: string)
    requires w < |world.wallets| && WalletConnected(world.wallets[w])
    ensures var s := world.wallets[w].session;
      At(Step(world, WalletSend(w, payload)).logs, channel) == At(world.logs, channel)
        + if channel == s.channel then [Sealed(s.theirKey, App(payload))] else []
  {
  }

  /** And what a connected wallet sends is appended to its session channel, sealed to the dApp it scanned;
      in untrusted mode that dApp mirrors the session, in either mode it does once it has finalised it. */
  lemma WalletMessageReaches(evs: seq<Event>, w: nat, payload: string, channel: string)
    requires w < |Run(evs).wallets| && WalletConnected(Run(evs).wallets[w])
    ensures var world, after := Run(evs), Run(evs + [WalletSend(w, payload)]); var r := world.wallets[w];
      && At(after.logs, channel) == At(world.logs, channel)
           + (if channel == r.session.channel then [Sealed(DappKey(r.dapp), App(payload))] else [])
      && r.dapp < |world.dapps|
      && ((r.request.mode.Untrusted? || Took(world, r.dapp, w)) && world.dapps[r.dapp].final.Some? ==>
            Mirrors(world.dapps[r.dapp].final.value, r.session))
  {
    var world := Run(evs);
    var d := world.wallets[w].dapp;
    RunKeepsInv(evs);
    RunMore(evs, WalletSend(w, payload));
    WalletSendAppends(world, w, payload, channel);
    assert WalletOk(world, w);
    assert DappOk(world, d);
    if Took(world, d, w) && world.dapps[d].final.Some? { FinalMirrors(world, d, w); }
  }

  /** Subscribe before acknowledging: in untrusted mode whatever a wallet publishes on the session channel
      for its dApp stands after the point at which the dApp subscribed there. */
  lemma DappSubscribedBeforePublication(evs: seq<Event>, d: nat, k: nat)
    requires d < |Run(evs).dapps| && Run(evs).dapps[d].request.mode.Untrusted? && Run(evs).dapps[d].final.Some?
    requires k < |At(Run(evs).logs, Run(evs).dapps[d].final.value.channel)|
    requires var e := At(Run(evs).logs, Run(evs).dapps[d].final.value.channel)[k]; e.to == DappKey(d) && e.body.App?
    ensures Run(evs).dapps[d].subscribedAt.Some? && Run(evs).dapps[d].subscribedAt.value <= k
  {
    RunKeepsInv(evs);
    RunKeepsPosted(evs);
    var world := Run(evs);
    assert EntryOk(world, At(world.logs, world.dapps[d].final.value.channel)[k]);
    assert DappOk(world, d) && SilentBefore(world, d);
  }

  /** The user's word: an untrusted dApp goes past its prompt exactly when its user's inputs accept the OTP
      of the offer, which is not empty; once they have cancelled it or used up the attempts, the run has failed. */
  lemma PromptDecides(evs: seq<Event>, d: nat)
    requires d < |Run(evs).dapps| && Run(evs).dapps[d].request.mode.Untrusted? && Run(evs).dapps[d].offer.Some?
    ensures var r := Run(evs).dapps[d];
      && r.offer.value.Offer?
      && (r.step >= HAS_OTP <==> Prompt(r).outcome == Otp.Accepted)
      && (r.step >= HAS_OTP ==> r.offer.value.otp != [])
      && (Prompt(r).outcome == Otp.Cancelled || Prompt(r).outcome == Otp.TooManyAttempts ==> r.failed)
  {
    RunKeepsInv(evs);
    assert DappOk(Run(evs), d);
  }

  // ---- The order of the steps ----

  predicate DappDid(r: DappRun, act: Act) { exists i :: 0 <= i < r.step && i < DappEnd(r) && DappScript(r.request.mode)[i] == act }
  predicate WalletDid(r: WalletRun, act: Act) { exists i :: 0 <= i < r.step && i < WalletEnd(r) && WalletScript(r.request.mode)[i] == act }

  // The last two positions of both scripts, and of the dApp's in trusted mode the last three.
  lemma LastPositions(mode: Mode, i: nat)
    ensures i < |DappScript(mode)| && DappScript(mode)[i] == StoreSession ==> i == if mode.Untrusted? then 7 else 4
    ensures i < |DappScript(mode)| && DappScript(mode)[i] == ClearHandshake ==> i == if mode.Untrusted? then 8 else 6
    ensures i < |WalletScript(mode)| && WalletScript(mode)[i] == StoreSession ==> i == if mode.Untrusted? then 6 else 5
    ensures i < |WalletScript(mode)| && WalletScript(mode)[i] == ClearHandshake ==> i == if mode.Untrusted? then 7 else 6
  {
  }

  /** What a wallet has done by the time it stores its session: it has subscribed and its offer stands in the
      handshake channel, and in untrusted mode the acknowledgement has come; and it clears the handshake
      channel only once the session is stored. */
  lemma WalletStoresLate(evs: seq<Event>, w: nat)
    requires w < |Run(evs).wallets|
    ensures var world := Run(evs); var r := world.wallets[w];
      && (WalletDid(r, StoreSession) ==>
            && r.subscribedAt.Some? && Sealed(r.request.key, OfferBy(r)) in At(world.logs, r.request.channel)
            && (r.request.mode.Untrusted? ==> Acknowledged(world, r.dapp, w)))
      && (WalletDid(r, ClearHandshake) ==> WalletDid(r, StoreSession))
  {
    RunKeepsInv(evs);
    RunKeepsPosted(evs);
    var r := Run(evs).wallets[w];
    assert WalletOk(Run(evs), w) && OfferPosted(Run(evs), w);
    if WalletDid(r, StoreSession) {
      var i: nat :| i < r.step && i < WalletEnd(r) && WalletScript(r.request.mode)[i] == StoreSession;
      LastPositions(r.request.mode, i);
    }
    if WalletDid(r, ClearHandshake) {
      var i: nat :| i < r.step && i < WalletEnd(r) && WalletScript(r.request.mode)[i] == ClearHandshake;
      LastPositions(r.request.mode, i);
      assert WalletScript(r.request.mode)[i - 1] == StoreSession;
    }
  }

  /** What a dApp has done by the time it stores its session: it holds the final session, and in untrusted
      mode its user's inputs have accepted the OTP, it has subscribed and its acknowledgement stands in the
      session channel. In trusted mode it subscribes only once the session is stored; in either mode it
      clears the handshake channel last. */
  lemma DappStoresLate(evs: seq<Event>, d: nat)
    requires d < |Run(evs).dapps|
    ensures var world := Run(evs); var r := world.dapps[d];
      && (DappDid(r, StoreSession) ==>
            && r.final.Some?
            && (r.request.mode.Untrusted? ==>
                  && r.offer.Some? && r.offer.value.Offer? && Prompt(r).outcome.Accepted? && r.subscribedAt.Some?
                  && Sealed(r.final.value.theirKey, Ack) in At(world.logs, r.final.value.channel)))
      && (r.request.mode.Trusted? && r.subscribedAt.Some? ==> DappDid(r, StoreSession))
      && (DappDid(r, ClearHandshake) ==> DappDid(r, StoreSession) && r.subscribedAt.Some?)
  {
    RunKeepsInv(evs);
    RunKeepsPosted(evs);
    var r := Run(evs).dapps[d];
    assert DappOk(Run(evs), d) && AckPosted(Run(evs), d);
    if DappDid(r, StoreSession) {
      var i: nat :| i < r.step && i < DappEnd(r) && DappScript(r.request.mode)[i] == StoreSession;
      LastPositions(r.request.mode, i);
    }
    if r.request.mode.Trusted? && r.subscribedAt.Some? { assert DappScript(r.request.mode)[4] == StoreSession; }
    if DappDid(r, ClearHandshake) {
      var i: nat :| i < r.step && i < DappEnd(r) && DappScript(r.request.mode)[i] == ClearHandshake;
      LastPositions(r.request.mode, i);
      assert DappScript(r.request.mode)[if r.request.mode.Untrusted? then 7 else 4] == StoreSession;
    }
  }

  // ---- Nobody shares a channel ----

  // Every channel in use is named after a uuid of its own.
  ghost predicate ChannelsApart(world: World) {
    && (forall d :: 0 <= d < |world.dapps| ==>
          world.dapps[d].request.id in world.uuids && world.dapps[d].request.channel == "handshake:" + world.dapps[d].request.id)
    && (forall d, d' :: 0 <= d < d' < |world.dapps| ==> world.dapps[d].request.channel != world.dapps[d'].request.channel)
    && (forall w, w' :: 0 <= w < w' < |world.wallets| ==> world.wallets[w].session.channel != world.wallets[w'].session.channel)
  }

  lemma PrefixInjective(prefix: string, a: string, b: string)
    ensures prefix + a == prefix + b ==> a == b
  {
    assert (prefix + a)[|prefix|..] == a && (prefix + b)[|prefix|..] == b;
  }

  lemma ScanKeepsApart(world: World, d: nat, uuid: string, otp: C.Utf16)
    requires Inv(world) && ChannelsApart(world)
    ensures ChannelsApart(Step(world, Scan(d, uuid, otp)))
  {
    if uuid !in world.uuids && d < |world.dapps| {
      forall w | 0 <= w < |world.wallets| ensures world.wallets[w].session.channel != SessionChannel(uuid) {
        assert WalletOk(world, w);
        var other :| other in world.uuids && world.wallets[w].session.channel == SessionChannel(other);
        PrefixInjective(SESSION_PREFIX, uuid, other);
      }
    }
  }

  lemma RequestKeepsApart(world: World, mode: Mode, id: string)
    requires ChannelsApart(world)
    ensures ChannelsApart(Step(world, NewRequest(mode, id)))
  {
    if id !in world.uuids {
      forall d | 0 <= d < |world.dapps| ensures world.dapps[d].request.channel != "handshake:" + id {
        PrefixInjective("handshake:", world.dapps[d].request.id, id);
      }
    }
  }

  // No other event makes or renames a channel.
  ghost predicate SameChannels(world: World, world': World) {
    && |world'.dapps| == |world.dapps| && |world'.wallets| == |world.wallets| && world'.uuids == world.uuids
    && (forall d :: 0 <= d < |world.dapps| ==> world'.dapps[d].request == world.dapps[d].request)
    && (forall w :: 0 <= w < |world.wallets| ==> world'.wallets[w].session == world.wallets[w].session)
  }

  lemma OthersKeepChannels(world: World, ev: Event)
    requires Inv(world) && !ev.NewRequest? && !ev.Scan?
    ensures SameChannels(world, Step(world, ev))
  {
    NoNewRuns(world, ev);
    forall d | 0 <= d < |world.dapps| ensures Step(world, ev).dapps[d].request == world.dapps[d].request { HowDappMoves(world, ev, d); }
    forall w | 0 <= w < |world.wallets| ensures Step(world, ev).wallets[w].session == world.wallets[w].session { HowWalletMoves(world, ev, w); }
  }

  lemma {:induction false} RunKeepsApart(evs: seq<Event>)
    ensures ChannelsApart(Run(evs))
  {
    if evs != [] {
      var n := |evs| - 1;
      RunKeepsInv(evs[..n]);
      RunKeepsApart(evs[..n]);
      match evs[n]
      case NewRequest(mode, id) => RequestKeepsApart(Run(evs[..n]), mode, id);
      case Scan(d, uuid, otp) => ScanKeepsApart(Run(evs[..n]), d, uuid, otp);
      case _ => OthersKeepChannels(Run(evs[..n]), evs[n]);
    }
  }

  /** In every run no two requests share a handshake channel, no two wallet runs a session channel, and no
      handshake channel is a session channel: two connected dApps never use one channel. */
  lemma NoChannelShared(evs: seq<Event>, d: nat, d': nat, w: nat, w': nat)
    requires d < |Run(evs).dapps| && d' < |Run(evs).dapps| && w < |Run(evs).wallets| && w' < |Run(evs).wallets|
    ensures var world := Run(evs);
      && (d != d' ==> world.dapps[d].request.channel != world.dapps[d'].request.channel)
      && (w != w' ==> world.wallets[w].session.channel != world.wallets[w'].session.channel)
      && world.dapps[d].request.channel != world.wallets[w].session.channel
      && (d != d' && DappConnected(world.dapps[d]) && DappConnected(world.dapps[d']) ==>
            world.dapps[d].final.Some? && world.dapps[d'].final.Some?
            && world.dapps[d].final.value.channel != world.dapps[d'].final.value.channel)
  {
    RunKeepsInv(evs);
    RunKeepsApart(evs);
    var world := Run(evs);
    assert WalletOk(world, w);
    assert world.dapps[d].request.channel[0] == 'h' && world.wallets[w].session.channel[0] == 's';
    if d != d' && DappConnected(world.dapps[d]) && DappConnected(world.dapps[d']) {
      Agreement(evs, d);
      Agreement(evs, d');
    }
  }

  // ---- A handshake can always be completed ----

  lemma RunMore(evs: seq<Event>, ev: Event)
    ensures Run(evs + [ev]) == Step(Run(evs), ev)
  {
    assert (evs + [ev])[..|evs|] == evs;
  }

  ghost predicate Stand(world: World, d: nat, rd: DappRun, w: nat, rw: WalletRun) {
    d < |world.dapps| && world.dapps[d] == rd && w < |world.wallets| && world.wallets[w] == rw
  }

  // The dApp takes one step that changes nothing but its position.
  lemma DappGoes(evs: seq<Event>, d: nat, rd: DappRun, w: nat, rw: WalletRun) returns (evs': seq<Event>)
    requires Stand(Run(evs), d, rd, w, rw) && !rd.failed && rd.step < DappEnd(rd)
    requires DappScript(rd.request.mode)[rd.step] in
               {ConnectTransport, SubscribeHandshake, StoreSession, ClearHandshake}
    ensures Stand(Run(evs'), d, rd.(step := rd.step + 1), w, rw) && Run(evs').logs == Run(evs).logs
  {
    evs' := evs + [DappStep(d)];
    RunMore(evs, DappStep(d));
  }

  lemma WalletGoes(evs: seq<Event>, d: nat, rd: DappRun, w: nat, rw: WalletRun) returns (evs': seq<Event>)
    requires Stand(Run(evs), d, rd, w, rw) && !rw.failed && rw.step < WalletEnd(rw)
    requires WalletScript(rw.request.mode)[rw.step] in {ConnectTransport, SubscribeHandshake, StoreSession, ClearHandshake}
    ensures Stand(Run(evs'), d, rd, w, rw.(step := rw.step + 1)) && Run(evs').logs == Run(evs).logs
  {
    evs' := evs + [WalletStep(w)];
    RunMore(evs, WalletStep(w));
  }

  // The request is made and scanned.
  lemma Scanned(evs: seq<Event>, mode: Mode, id: string, uuid: string, otp: C.Utf16)
    returns (evs': seq<Event>, rd: DappRun, rw: WalletRun)
    requires id !in Run(evs).uuids && uuid !in Run(evs).uuids && uuid != id
    ensures var d, w := |Run(evs).dapps|, |Run(evs).wallets|;
      && Stand(Run(evs'), d, rd, w, rw)
      && rd == DappRun(Request(id, mode, "handshake:" + id, DappKey(d)), 0, false, None, [], None, None)
      && rw == WalletRun(d, rd.request, 1, false, Session(id, SessionChannel(uuid), WalletKey(w), DappKey(d)), otp, None)
  {
    var d := |Run(evs).dapps|;
    RunMore(evs, NewRequest(mode, id));
    var one := evs + [NewRequest(mode, id)];
    RunMore(one, Scan(d, uuid, otp));
    evs' := one + [Scan(d, uuid, otp)];
    rd, rw := Run(evs').dapps[d], Run(evs').wallets[|Run(evs).wallets|];
  }

  lemma WalletSubscribes(evs: seq<Event>, d: nat, rd: DappRun, w: nat, rw: WalletRun) returns (evs': seq<Event>, rw': WalletRun)
    requires Stand(Run(evs), d, rd, w, rw) && WalletAt(rw, SubscribeSession)
    ensures Stand(Run(evs'), d, rd, w, rw') && rw' == rw.(step := rw.step + 1, subscribedAt := rw'.subscribedAt)
  {
    RunMore(evs, WalletStep(w));
    evs' := evs + [WalletStep(w)];
    rw' := Run(evs').wallets[w];
  }

  ghost predicate EndsWith(world: World, channel: string, e: Sealed) {
    var log := At(world.logs, channel);
    log != [] && log[|log| - 1] == e
  }

  lemma OfferSent(evs: seq<Event>, d: nat, rd: DappRun, w: nat, rw: WalletRun) returns (evs': seq<Event>)
    requires Stand(Run(evs), d, rd, w, rw) && WalletAt(rw, SendOffer)
    ensures Stand(Run(evs'), d, rd, w, rw.(step := rw.step + 1))
    ensures EndsWith(Run(evs'), rw.request.channel, Sealed(rw.request.key, OfferBy(rw)))
  {
    RunMore(evs, WalletStep(w));
    evs' := evs + [WalletStep(w)];
  }

  // The wallet subscribes and sends its offer, which stands at the end of the handshake channel.
  lemma Offered(evs: seq<Event>, d: nat, rd: DappRun, w: nat, rw: WalletRun) returns (evs': seq<Event>, rw': WalletRun)
    requires Stand(Run(evs), d, rd, w, rw) && !rw.failed && rw.step == 1
    ensures Stand(Run(evs'), d, rd, w, rw') && rw' == rw.(step := OFFER_SENT, subscribedAt := rw'.subscribedAt)
    ensures EndsWith(Run(evs'), rw.request.channel, Sealed(rw.request.key, OfferBy(rw)))
  {
    evs' := WalletGoes(evs, d, rd, w, rw);
    evs' := WalletGoes(evs', d, rd, w, rw.(step := 2));
    evs', rw' := WalletSubscribes(evs', d, rd, w, rw.(step := 3));
    evs' := OfferSent(evs', d, rd, w, rw');
    rw' := rw'.(step := OFFER_SENT);
  }

  lemma ReceivedOffer(world: World, d: nat, e: Sealed)
    requires d < |world.dapps| && DappAt(world.dapps[d], AwaitOffer) && e.to == world.dapps[d].request.key && e.body.Offer?
    ensures var world' := ReceiveDapp(world, d, e);
      && d < |world'.dapps| && world'.wallets == world.wallets
      && world'.dapps[d] == world.dapps[d].(step := world.dapps[d].step + 1, offer := Some(e.body))
  {
  }

  lemma DeliveredToDapp(world: World, d: nat, channel: string, k: nat)
    requires d < |world.dapps| && k < |At(world.logs, channel)|
    ensures Step(world, DappReceive(d, channel, k)) == ReceiveDapp(world, d, At(world.logs, channel)[k])
  {
  }

  lemma OfferReceived(evs: seq<Event>, d: nat, rd: DappRun, w: nat, rw: WalletRun, channel: string, offer: Body)
    returns (evs': seq<Event>)
    requires Stand(Run(evs), d, rd, w, rw) && DappAt(rd, AwaitOffer)
    requires offer.Offer? && EndsWith(Run(evs), channel, Sealed(rd.request.key, offer))
    ensures Stand(Run(evs'), d, rd.(step := rd.step + 1, offer := Some(offer)), w, rw)
  {
    var k := |At(Run(evs).logs, channel)| - 1;
    ReceivedOffer(Run(evs), d, Sealed(rd.request.key, offer));
    DeliveredToDapp(Run(evs), d, channel, k);
    RunMore(evs, DappReceive(d, channel, k));
    evs' := evs + [DappReceive(d, channel, k)];
  }

  lemma DappWaits(evs: seq<Event>, d: nat, rd: DappRun, w: nat, rw: WalletRun) returns (evs': seq<Event>)
    requires Stand(Run(evs), d, rd, w, rw) && !rd.failed && rd.step == 0
    ensures Stand(Run(evs'), d, rd.(step := 2), w, rw) && Run(evs').logs == Run(evs).logs
  {
    evs' := DappGoes(evs, d, rd, w, rw);
    evs' := DappGoes(evs', d, rd.(step := 1), w, rw);
  }

  // The dApp connects, subscribes and takes the last entry of the channel as the wallet's offer.
  lemma OfferTaken(evs: seq<Event>, d: nat, rd: DappRun, w: nat, rw: WalletRun, channel: string, offer: Body)
    returns (evs': seq<Event>)
    requires Stand(Run(evs), d, rd, w, rw) && !rd.failed && rd.step == 0
    requires offer.Offer? && EndsWith(Run(evs), channel, Sealed(rd.request.key, offer))
    ensures Stand(Run(evs'), d, rd.(step := HAS_OFFER, offer := Some(offer)), w, rw)
  {
    evs' := DappWaits(evs, d, rd, w, rw);
    evs' := OfferReceived(evs', d, rd.(step := 2), w, rw, channel, offer);
  }

  lemma RightAtOnce(otp: C.Utf16)
    ensures Otp.Run(Otp.Start(otp), [Otp.Submit(otp)]).outcome.Accepted?
  {
    assert [Otp.Submit(otp)][..0] == [];
  }

  lemma AcceptedInput(world: World, d: nat, input: Otp.Input)
    requires d < |world.dapps| && DappAt(world.dapps[d], EnterOtp)
    requires var r := world.dapps[d];
      && r.offer.Some? && r.offer.value.Offer? && r.offer.value.otp != []
      && Prompt(r.(inputs := r.inputs + [input])).outcome.Accepted?
    ensures var r := world.dapps[d];
      InputDapp(world, d, input) == SetDapp(world, d, r.(inputs := r.inputs + [input], step := r.step + 1))
  {
  }

  // In untrusted mode the user enters the right OTP at once.
  lemma OtpEntered(evs: seq<Event>, d: nat, rd: DappRun, w: nat, rw: WalletRun) returns (evs': seq<Event>, rd': DappRun)
    requires Stand(Run(evs), d, rd, w, rw) && !rd.failed && rd.step == HAS_OFFER && rd.request.mode.Untrusted?
    requires rd.offer.Some? && rd.offer.value.Offer? && rd.offer.value.otp != [] && rd.inputs == []
    ensures Stand(Run(evs'), d, rd', w, rw) && rd' == rd.(step := HAS_OTP, inputs := rd'.inputs)
  {
    var input := Otp.Submit(rd.offer.value.otp);
    RightAtOnce(rd.offer.value.otp);
    assert rd.inputs + [input] == [input];
    AcceptedInput(Run(evs), d, input);
    RunMore(evs, DappInput(d, input));
    evs' := evs + [DappInput(d, input)];
    rd' := rd.(step := HAS_OTP, inputs := [input]);
  }

  lemma Finalized(evs: seq<Event>, d: nat, rd: DappRun, w: nat, rw: WalletRun) returns (evs': seq<Event>, rd': DappRun)
    requires Stand(Run(evs), d, rd, w, rw) && DappAt(rd, FinalizeSession) && rd.offer.Some? && rd.offer.value.Offer?
    ensures Stand(Run(evs'), d, rd', w, rw)
    ensures rd' == rd.(step := rd.step + 1, final := Some(FinalSession(rd.request, rd.offer.value)))
  {
    RunMore(evs, DappStep(d));
    evs' := evs + [DappStep(d)];
    rd' := Run(evs').dapps[d];
  }

  lemma DappSubscribes(evs: seq<Event>, d: nat, rd: DappRun, w: nat, rw: WalletRun) returns (evs': seq<Event>, rd': DappRun)
    requires Stand(Run(evs), d, rd, w, rw) && DappAt(rd, SubscribeSession) && rd.final.Some?
    ensures Stand(Run(evs'), d, rd', w, rw) && rd' == rd.(step := rd.step + 1, subscribedAt := rd'.subscribedAt)
  {
    RunMore(evs, DappStep(d));
    evs' := evs + [DappStep(d)];
    rd' := Run(evs').dapps[d];
  }

  lemma AckGiven(evs: seq<Event>, d: nat, rd: DappRun, w: nat, rw: WalletRun) returns (evs': seq<Event>)
    requires Stand(Run(evs), d, rd, w, rw) && DappAt(rd, SendAck) && rd.final.Some?
    ensures Stand(Run(evs'), d, rd.(step := rd.step + 1), w, rw)
    ensures EndsWith(Run(evs'), rd.final.value.channel, Sealed(rd.final.value.theirKey, Ack))
  {
    RunMore(evs, DappStep(d));
    evs' := evs + [DappStep(d)];
  }

  lemma ReceivedAck(world: World, w: nat, e: Sealed)
    requires w < |world.wallets| && WalletAt(world.wallets[w], AwaitAck) && e == Sealed(world.wallets[w].session.key, Ack)
    ensures ReceiveWallet(world, w, e) == SetWallet(world, w, world.wallets[w].(step := world.wallets[w].step + 1))
  {
  }

  lemma DeliveredToWallet(world: World, w: nat, channel: string, k: nat)
    requires w < |world.wallets| && k < |At(world.logs, channel)|
    ensures Step(world, WalletReceive(w, channel, k)) == ReceiveWallet(world, w, At(world.logs, channel)[k])
  {
  }

  lemma AckReceived(evs: seq<Event>, d: nat, rd: DappRun, w: nat, rw: WalletRun, channel: string) returns (evs': seq<Event>)
    requires Stand(Run(evs), d, rd, w, rw) && WalletAt(rw, AwaitAck) && EndsWith(Run(evs), channel, Sealed(rw.session.key, Ack))
    ensures Stand(Run(evs'), d, rd, w, rw.(step := rw.step + 1))
  {
    var k := |At(Run(evs).logs, channel)| - 1;
    ReceivedAck(Run(evs), w, Sealed(rw.session.key, Ack));
    DeliveredToWallet(Run(evs), w, channel, k);
    RunMore(evs, WalletReceive(w, channel, k));
    evs' := evs + [WalletReceive(w, channel, k)];
  }

  // The dApp acknowledges and the wallet takes the acknowledgement from its session channel.
  lemma AckTaken(evs: seq<Event>, d: nat, rd: DappRun, w: nat, rw: WalletRun) returns (evs': seq<Event>)
    requires Stand(Run(evs), d, rd, w, rw) && DappAt(rd, SendAck) && rd.final.Some?
    requires WalletAt(rw, AwaitAck) && rd.final.value.theirKey == rw.session.key
    ensures Stand(Run(evs'), d, rd.(step := rd.step + 1), w, rw.(step := rw.step + 1))
  {
    evs' := AckGiven(evs, d, rd, w, rw);
    evs' := AckReceived(evs', d, rd.(step := rd.step + 1), w, rw, rd.final.value.channel);
  }

  // The dApp clears the handshake channel; the wallet stores its session and does the same.
  lemma BothFinish(evs: seq<Event>, d: nat, rd: DappRun, w: nat, rw: WalletRun) returns (evs': seq<Event>)
    requires Stand(Run(evs), d, rd, w, rw) && !rd.failed && !rw.failed
    requires rd.request.mode == rw.request.mode && rd.step == DappEnd(rd) - 1 && rw.step == WalletEnd(rw) - 2
    ensures Stand(Run(evs'), d, rd.(step := DappEnd(rd)), w, rw.(step := WalletEnd(rw)))
  {
    var evs1 := DappGoes(evs, d, rd, w, rw);
    var evs2 := WalletGoes(evs1, d, rd.(step := DappEnd(rd)), w, rw);
    evs' := WalletGoes(evs2, d, rd.(step := DappEnd(rd)), w, rw.(step := rw.step + 1));
  }

  lemma UntrustedCompletes(evs: seq<Event>, d: nat, rd: DappRun, w: nat, rw: WalletRun) returns (evs': seq<Event>)
    requires Stand(Run(evs), d, rd, w, rw) && !rd.failed && !rw.failed && rd.request == rw.request && rd.request.mode.Untrusted?
    requires rd.step == HAS_OFFER && rd.offer == Some(OfferBy(rw)) && rw.otp != [] && rd.inputs == [] && rw.step == OFFER_SENT
    ensures d < |Run(evs').dapps| && DappConnected(Run(evs').dapps[d]) && Run(evs').dapps[d].request == rd.request
    ensures w < |Run(evs').wallets| && WalletConnected(Run(evs').wallets[w]) && Run(evs').wallets[w].dapp == rw.dapp
    ensures Run(evs').dapps[d].final == Some(FinalSession(rd.request, OfferBy(rw))) && Run(evs').wallets[w].session == rw.session
  {
    var rd1, rd2, rd3;
    evs', rd1 := OtpEntered(evs, d, rd, w, rw);
    evs', rd2 := Finalized(evs', d, rd1, w, rw);
    evs', rd3 := DappSubscribes(evs', d, rd2, w, rw);
    evs' := AckTaken(evs', d, rd3, w, rw);
    evs' := DappGoes(evs', d, rd3.(step := HAS_ACKED), w, rw.(step := ACK_RECEIVED));
    evs' := BothFinish(evs', d, rd3.(step := 8), w, rw.(step := ACK_RECEIVED));
  }

  lemma TrustedCompletes(evs: seq<Event>, d: nat, rd: DappRun, w: nat, rw: WalletRun) returns (evs': seq<Event>)
    requires Stand(Run(evs), d, rd, w, rw) && !rd.failed && !rw.failed && rd.request == rw.request && rd.request.mode.Trusted?
    requires rd.step == HAS_OFFER && rd.offer == Some(OfferBy(rw)) && rw.step == OFFER_SENT
    ensures d < |Run(evs').dapps| && DappConnected(Run(evs').dapps[d]) && Run(evs').dapps[d].request == rd.request
    ensures w < |Run(evs').wallets| && WalletConnected(Run(evs').wallets[w]) && Run(evs').wallets[w].dapp == rw.dapp
    ensures Run(evs').dapps[d].final == Some(FinalSession(rd.request, OfferBy(rw))) && Run(evs').wallets[w].session == rw.session
  {
    var rd1, rd2;
    evs', rd1 := Finalized(evs, d, rd, w, rw);
    evs' := DappGoes(evs', d, rd1, w, rw);
    evs', rd2 := DappSubscribes(evs', d, rd1.(step := 5), w, rw);
    evs' := BothFinish(evs', d, rd2, w, rw);
  }

  /** Whatever has happened before - failed attempts, other wallets, repeated messages - a new request
      can still be carried through to two connected clients, in either mode. */
  lemma FreshHandshakeCompletes(evs: seq<Event>, mode: Mode, id: string, uuid: string, otp: C.Utf16) returns (evs': seq<Event>)
    requires id !in Run(evs).uuids && uuid !in Run(evs).uuids && uuid != id && otp != []
    ensures var d, w, world := |Run(evs).dapps|, |Run(evs).wallets|, Run(evs');
      && d < |world.dapps| && DappConnected(world.dapps[d]) && world.dapps[d].request.mode == mode
      && w < |world.wallets| && WalletConnected(world.wallets[w]) && world.wallets[w].dapp == d
      && world.dapps[d].final.Some? && Mirrors(world.dapps[d].final.value, world.wallets[w].session)
  {
    StripThenPrefix(uuid);
    var d, w := |Run(evs).dapps|, |Run(evs).wallets|;
    var rd, rw;
    evs', rd, rw := Scanned(evs, mode, id, uuid, otp);
    evs', rw := Offered(evs', d, rd, w, rw);
    evs' := OfferTaken(evs', d, rd, w, rw, rd.request.channel, OfferBy(rw));
    rd := rd.(step := HAS_OFFER, offer := Some(OfferBy(rw)));
    if mode.Untrusted? {
      evs' := UntrustedCompletes(evs', d, rd, w, rw);
    } else {
      evs' := TrustedCompletes(evs', d, rd, w, rw);
    }
  }
}
