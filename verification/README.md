# Verified model of the mobile wallet protocol

This project models the core of a protocol that connects a dApp and a mobile wallet through a
relay: the message transport with its persisted nonces, the handshake that pairs the two clients,
the connection shared by several transports, the session store, and a few small algorithms they
stand on. `dafny verify dfyconfig.toml` checks everything.

## How it is laid out

| file | what it holds |
|---|---|
| `Retry.dfy`, `Otp.dfy`, `ShellQuoting.dfy` | retry with doubling backoff; string comparison and the OTP prompt; shell quoting |
| `Reception.dfy` | the relay log, the nonce filter, history replay and the loss bound |
| `Receiver.dfy` | `_handleIncomingMessage` cut at its awaits |
| `Sender.dfy`, `Settlement.dfy` | the queue and its drain loop cut at every await; what settled promises mean; `disconnect` |
| `Clearing.dfy`, `ClearedReceivers.dfy` | what `clear` costs a channel's later messages: at the sender, at other clients, at the clearing client's own receiver |
| `Delivery.dfy` | any number of transports around one relay: the end-to-end theorems |
| `Transport.dfy`, `Storage.dfy` | the same code as objects: `WebSocketTransport`, its storage, the key layout |
| `Retrying.dfy` | the drain loop under retry: runs of the sending half as a step machine against the loops of the source |
| `SharedCentrifuge.dfy` | reference counting of one connection and its subscriptions |
| `SessionBook.dfy`, `SessionStore.dfy`, `SessionInterleaving.dfy` | the session store: its meaning, the object, and concurrent calls |
| `Clients.dfy` | `connect`, `resume`, `reconnect` and `disconnect` with a fault possible at every step |
| `Handshake.dfy` | dApps and wallets as step machines over relay logs |

The protocol parts are state machines with one step per stretch of code between two awaits. A crash
is a step that keeps only what is in the key-value store. Classes carry the source's mutable fields.
Their methods perform exactly one step of the machine, and the invariants proved for the machine are
part of the classes' `Valid()`: every object has them between any two awaits.

An attempt to publish may reach the relay and still report failure (`Landed` and then `Failed`), or
reach it after it was reported or after a crash (`LateLanding`). The delivery theorems come in two
strengths. `AtMostOnceDelivery` lets the relay delay, repeat and reorder messages and lets everything
crash. `ExactlyOnceInOrder` and `EverythingSentArrivesInOrder` assume that a message landing late is no
older than what its sender already has in the channel, that arrivals are in-order slices of the log
starting no later than the first unseen entry, that one message is handled before the next, and that
nothing fails between writing a high-water mark and emitting.

## Where the code does less than one might expect

Each of these is proved, with the exact condition under which the code does meet the property.

- `disconnect()` with an item in hand resolves that item's promise to `false` although it can still be
  sent: every later `false` is truthful iff no item was in hand (`Settlement.DisconnectHonestIff`). The
  drain loop then shifts whatever was queued next, whose promise never settles: some later promise is
  orphaned in some continuation iff an item was in hand (`Settlement.DisconnectOrphansIff`; one
  `connect` and one `publish` lead there, `Settlement.OrphanReachable`).
- `_handleIncomingMessage` has no lock. Starting a message while another acceptable one is being
  handled can emit a message twice (`Receiver.SafeToStartIff`). A failure between the write of a mark
  and the emit loses the message for good, and only that failure does (`Receiver.FailureHarmlessIff`,
  `Receiver.FailedWriteLosesForever`).
- `clear()` restarts a channel's nonces at 1. Whatever follows, frames that land late included, no
  nonce is put on two payloads iff no message of the channel had been given a nonce
  (`Clearing.ClearSafeIff`; a channel without a nonce record has none, `Clearing.NoRecordIsUnnumbered`).
  A receiver that is up to date in order emits everything published after the clear iff the same
  holds (`ClearedReceivers.ClearHeardIff`). `clear()` also forgets the marks of the clearing client's
  own receiving: it emits nothing twice afterwards iff it had emitted nothing on the channel and at
  most one call that may emit was in flight (`ClearedReceivers.ClearKeepsAtMostOnceIff`).
- History covers a gap exactly up to the retained window (`Reception.NothingLostIff`).
- A latest-nonces record that does not parse makes every incoming message of the channel fail
  (`Transport.ChannelReceiver.FetchHistory`).
- A shared connection keeps exact counts unless a url is entered while its context is being closed,
  a disconnected instance subscribes, or a channel is removed by an instance that does not hold it
  but another does (`SharedConnection.ExactIff`). `WebSocketTransport.disconnect` returns early when
  the transport's state is "disconnected", so a transport that was never connected, or whose
  client has ended in that state, keeps its reference (`SharedConnection.SharedCentrifuge.DisconnectTransport`), and
  the context of its url is then never closed (`SharedConnection.KeptReferenceKeepsContext`).
- Listeners of a shared connection sit on the real subscription. An instance that gives up a channel, by
  `clear` or `disconnect`, while another instance keeps it goes on hearing it, and hears every
  publication twice once it has subscribed again; it hears as its own client would iff that never
  happened (`SharedConnection.HearsExactly`, `SharedConnection.HearsAsPrivateIff`).
- `set` and `delete` of one session id can separate list and record in some continuation iff one is
  started while the other has not joined the mutex (`SessionInterleaving.ClashIff`); waiting in the
  mutex is joining, since it serves first in, first out.
- A crash between the two writes of `set` or `delete` takes that one id out of step (example:
  `SessionStore.CrashBreaksOne`); a completed call for it brings it back (`SessionStore.CompletedCallHeals`).
- A session with infinite expiry passes the check of `set`, is written as `null`, and never comes
  back (`SessionBook.SetThenGet`).
- A wallet's failing `connect` always leaves nothing under the request's id iff there was no record
  under it, other than that of a session left over from a failed reconnect
  (`Clients.WalletClient.FailedConnectCleansIff`); and it always leaves other records alone iff no
  other stored session is left over (`Clients.WalletClient.FailedConnectSparesOthersIff`, with a run in
  `Clients.WalletClient.OtherSessionLost`).

Where code and documentation differ the model follows the code. `docs/02-connection-flow.md:145` and
`docs/02-connection-flow.md:179` say that a trusted wallet saves its session before it sends the offer;
the code stores it afterwards. The OTP is called time-limited, but the dApp checks the deadline only
before the prompt is shown, not when an OTP is submitted.

## Model

| member | source | states |
|---|---|---|
| `Retry.Retry` | packages/core/src/utils/retry.ts:19-33 | succeeds iff one of the allowed attempts does, returns the first success or throws the last error, waits base * 2^k between attempts, throws the fallback error only when no attempt is allowed |
| `Retry.TotalBackoff` | packages/core/src/utils/retry.ts:27-28 | n retries wait base * (2^n - 1) in all |
| `ConstantTime.TimingSafeEqual` | packages/core/src/utils/timing-safe-equal.ts:9-17 | the OR/XOR loop over UTF-16 units returns true iff the strings are equal |
| `Otp.OtpPrompt.Submit` | packages/dapp-client/src/handlers/untrusted-connection-handler.ts:93-104 | a right entry accepts a pending prompt, the third wrong one ends it with too many attempts, and the reply tells the attempts that remain exactly when the entry was wrong and another is allowed |
| `Otp.OtpPrompt.Cancel` | packages/dapp-client/src/handlers/untrusted-connection-handler.ts:106 | a cancel ends a pending prompt as cancelled and changes nothing else |
| `Otp.RunState` | packages/dapp-client/src/handlers/untrusted-connection-handler.ts:91-106 | after any inputs the counter is the number of wrong submissions, and the promise is pending iff there was no cancel, no right submission and fewer than three wrong ones |
| `Otp.OtpAcceptedIff` | packages/dapp-client/src/handlers/untrusted-connection-handler.ts:81-109 | for every sequence of inputs: accepted iff a right submission comes before any cancel and after at most two wrong ones |
| `Otp.OtpCancelledIff` | packages/dapp-client/src/handlers/untrusted-connection-handler.ts:106 | for every sequence of inputs: cancelled iff a cancel comes before any right submission and after at most two wrong ones |
| `Otp.OtpExhaustedIff` | packages/dapp-client/src/handlers/untrusted-connection-handler.ts:94-97 | for every sequence of inputs: too many attempts iff a third wrong submission comes before any cancel and before any right one |
| `Otp.OtpOutcomeIsFinal` | packages/dapp-client/src/handlers/untrusted-connection-handler.ts:82-108 | a settled outcome is never changed by later inputs |
| `ShellQuoting.QuoteInContext` | apps/load-tests/src/cli/infra.ts:370 | a quoted argument inserted anywhere outside quotes adds exactly the original text to the current word and leaves the shell outside quotes |
| `ShellQuoting.QuoteRoundTrip` | apps/load-tests/src/cli/infra.ts:444-445 | for every string, the quoted form is read as one word equal to it |
| `ShellQuoting.BareQuotesRoundTripIff` | apps/load-tests/src/cli/infra.ts:29-31 | without escaping the round trip holds iff the string has no quote, so the replacement is needed for exactly the others |
| `Reception.FilterDelivers` | packages/core/src/transport/websocket/index.ts:245-255 | on a log whose senders' nonces never go down, the high-water filter emits each foreign message once, in log order |
| `Reception.ReplaySlice` | packages/core/src/transport/websocket/index.ts:264-269 | replaying any slice that starts no later than the first unseen entry leaves the receiver as if the log had been handled once up to the furthest entry seen |
| `Reception.HistoryLossBound` | packages/core/src/transport/websocket/index.ts:264-276 | what a resubscribing receiver gets is exactly the new foreign messages at log positions max(p, L-H) up to min(L, L-H+F) |
| `Reception.NothingLostIff` | packages/core/src/transport/websocket/index.ts:53 | nothing is lost, whatever the log holds, iff the receiver was up to date or the gap fits the retained window and the fetch limit covers that window |
| `Reception.ShippedLimits` | backend/config.json:22-36 | with the shipped sizes 5 and 20 and the limit 50, only the window can lose anything |
| `Receiver.UninterruptedIsHandle` | packages/core/src/transport/websocket/index.ts:233-259 | a call that is not interrupted is the atomic filter step |
| `Receiver.AtMostOnce` | packages/core/src/transport/websocket/index.ts:246-253 | no (sender, nonce) is emitted twice and nonces come out increasing, for every order and repetition of arrivals, every store failure and every crash, as long as live calls do not overlap |
| `Receiver.SafeToStartIff` | packages/core/src/transport/websocket/index.ts:181-183 | starting a call keeps every continuation free of duplicates iff its message is not acceptable or no live call is suspended |
| `Receiver.OverlapDuplicates` | packages/core/src/transport/websocket/index.ts:246-253 | from every state with a live call, an unsafe start has a continuation that emits some message twice |
| `Receiver.FailureHarmlessIff` | packages/core/src/transport/websocket/index.ts:251-253 | whatever is published later, every in-order continuation of a failing call delivers exactly the log up to the furthest entry seen iff the new mark had not been written |
| `Receiver.FailedWriteLosesForever` | packages/core/src/transport/websocket/index.ts:251-253 | a message whose call fails after the write was never emitted and is emitted in no continuation, in order or not |
| `Receiver.RestartRedelivers` | packages/core/src/transport/websocket/index.ts:246-253 | after a crash before the write of a mark any message may be started again, and the interrupted one is emitted when handled once more |
| `Receiver.ExactIsDelivered` | packages/core/src/transport/websocket/index.ts:264-269 | in in-order runs the emitted messages are exactly the log's foreign messages up to the furthest entry seen |
| `Receiver.StepKeepsExact` | packages/core/src/transport/websocket/index.ts:233-276 | every in-order event, restarts and store failures before the write included, keeps that |
| `Sender.StepKeepsSingleDrain` | packages/core/src/transport/websocket/index.ts:297-320 | at every await: at most one drain loop, the flag tells whether there is one, and a connected transport with a queue always has one |
| `Sender.StepKeepsQueueOrder` | packages/core/src/transport/websocket/index.ts:204-210 | the queue stays in publish order and nonces go to earlier items only, even with arbitrary disconnects |
| `Sender.StepKeepsNumbered` | packages/core/src/transport/websocket/store.ts:42-49 | nonces are positive, covered by the persisted counter, and increase with publish order per channel, through every crash and store failure |
| `Settlement.NonceHasOnePayload` | packages/core/src/transport/websocket/index.ts:281-292 | two log entries of a sender with the same nonce are the same message |
| `Settlement.StepKeepsSenderInv` | packages/core/src/transport/websocket/index.ts:281-320 | every event of the sender keeps: all its log entries stem from publish calls, and a promise resolved to true is in the log under its own nonce |
| `Settlement.AppendKeepsSenderInv` | packages/core/src/transport/websocket/index.ts:284-291 | so does anything else put into a channel: other senders, malformed data, and this sender's messages arriving late or again |
| `Settlement.OutcomeSources` | packages/core/src/transport/websocket/index.ts:305-316 | a settled promise never changes; true comes only from the landed attempt in hand, false only from disconnect() with the item queued, a rejection only from a failed store access or the fifth failed attempt of the item in hand; a crash leaves none pending |
| `Settlement.StepKeepsConserved` | packages/core/src/transport/websocket/index.ts:122-124 | without disconnect() during an item in hand, every publish call is pending iff queued, the item in hand is the head, and false means no nonce was spent |
| `Settlement.NotSentNeverLogged` | packages/core/src/transport/websocket/index.ts:122-124 | false implies that no log entry is this call's message |
| `Settlement.DisconnectHonestIff` | packages/core/src/transport/websocket/index.ts:122-124 | every later false is truthful in every continuation iff no item was in hand when disconnect() was called |
| `Settlement.DisconnectOrphansIff` | packages/core/src/transport/websocket/index.ts:306-314 | in every quiet continuation of disconnect() each pending promise is still queued or in hand iff no item was in hand when it was called |
| `Settlement.RunKeepsOrphan` | packages/core/src/transport/websocket/index.ts:306-314 | an orphaned promise stays unsettled in every continuation without a crash |
| `Settlement.OrphanReachable` | packages/core/src/transport/websocket/index.ts:122-124 | connecting a new transport and publishing once reaches a state in which disconnect() leads to an orphan |
| `Settlement.StepKeepsOwnOrdered` | packages/core/src/transport/websocket/index.ts:297-320 | a sender's nonces in the log never go down, even with crashes and arbitrary disconnects |
| `Settlement.LogFollowsPublishOrder` | packages/core/src/transport/websocket/index.ts:305-316 | of two log entries of a sender the earlier never belongs to a later publish call |
| `Clearing.ClearSafeIff` | packages/core/src/transport/websocket/store.ts:79-83 | whatever follows a clear, frames numbered before it that land late included, no nonce of the channel is on two payloads, iff no message of the channel had been given a nonce |
| `ClearedReceivers.ClearHeardIff` | packages/core/src/transport/websocket/index.ts:246-255 | a receiver of another client that is exact at the clear and steps on in order emits, once it has caught up, everything of the sender that stands in the log after the clear, in every timely continuation, iff no message of the channel had been given a nonce |
| `ClearedReceivers.ClearKeepsAtMostOnceIff` | packages/core/src/transport/websocket/store.ts:79-83 | after a clear has forgotten the client's own marks, no allowed continuation emits a message twice iff nothing had been emitted on the channel and live calls did not overlap once the marks were forgotten |
| `ClearedReceivers.ReachedIsPositive` | packages/core/src/transport/websocket/index.ts:246-253 | what the row above assumes of a receiver holds in every reachable state |
| `Delivery.AtMostOnceDelivery` | packages/core/src/transport/websocket/index.ts:233-320 | in every guarded run of any number of transports: no nonce on two payloads, nothing emitted twice, nonce order kept, and every emitted message was really published by its sender on that channel |
| `Delivery.ExactlyOnceInOrder` | packages/core/src/transport/websocket/index.ts:233-320 | in every prompt run, late landings included, what a receiver emitted from a sender is, once each and in publish order, what that sender published and what reached the log up to the furthest entry seen |
| `Delivery.LateInOrderIff` | packages/core/src/transport/websocket/index.ts:287-291 | a frame that lands late leaves the nonces of its channel in order iff it is no older than what its sender has there, the assumption of the row above |
| `Delivery.EverythingSentArrivesInOrder` | packages/core/src/transport/websocket/index.ts:204-210 | once all publish calls on a channel resolved to true and the receiver has caught up, it has emitted exactly their payloads in call order |
| `TransportStorage.WebSocketTransportStorage.Create` | packages/core/src/transport/websocket/store.ts:16-24 | a stored client id is reused and nothing written; otherwise the new id is stored and nothing else changes |
| `TransportStorage.WebSocketTransportStorage.GetNextNonce` | packages/core/src/transport/websocket/store.ts:42-49 | returns one more than the persisted nonce, which is persisted by then, and touches no other slot |
| `TransportStorage.WebSocketTransportStorage.GetLatestNonces` | packages/core/src/transport/websocket/store.ts:56-64 | reads the channel's marks, none if there is no record; throws iff the record does not parse |
| `TransportStorage.WebSocketTransportStorage.SetLatestNonces` | packages/core/src/transport/websocket/store.ts:70-74 | writes the channel's marks and touches no other slot |
| `TransportStorage.WebSocketTransportStorage.Clear` | packages/core/src/transport/websocket/store.ts:79-83 | forgets nonce and marks of the channel and touches no other slot |
| `StorageKeys.KeysAreInjective` | packages/core/src/transport/websocket/store.ts:88-104 | for one client id, session, master-list, nonce, latest-nonce and client-id keys are pairwise distinct and injective |
| `StorageKeys.ClientsAreSeparate` | packages/core/src/transport/websocket/store.ts:95-104 | if client ids hold no colon, records of different clients never share a key |
| `StorageKeys.ColonInClientIdCollides` | packages/core/src/transport/websocket/store.ts:95-97 | with a colon in a client id they can |
| `TransportStorage.SessionWritesSpareTransport` | packages/core/src/session-store/index.ts:31-32 | a change of session keys only leaves every nonce, every mark and the client id as they were |
| `TransportStorage.TransportWritesSpareSessions` | packages/core/src/session-store/index.ts:159-161 | a change of transport slots only leaves every session record and the master list as they were |
| `TransportStorage.ClearSparesOtherChannels` | packages/core/src/transport/websocket/store.ts:79-83 | clearing a channel leaves nonces and marks of all other channels unchanged |
| `Transport.WebSocketTransport.constructor` | packages/core/src/transport/websocket/index.ts:75-103 | a transport made over the store of a former one, wherever that one stopped, satisfies every invariant and has lost only what was in memory |
| `Transport.WebSocketTransport.Publish` | packages/core/src/transport/websocket/index.ts:204-210 | the call is queued last with its promise pending and nothing else settled or reordered; on a connected transport a drain loop is running when the call returns, for an item not after this one, and a loop already running is left alone; all invariants kept |
| `Transport.WebSocketTransport.OnConnected` | packages/core/src/transport/websocket/index.ts:97-100 | queue and promises untouched; a waiting queue has a drain loop afterwards, in hand an item not after its head; all invariants kept |
| `Transport.WebSocketTransport.OnSubscribed` | packages/core/src/transport/websocket/index.ts:176-179 | with anything queued nothing changes at all, because a connected transport with a queue has its loop already |
| `Transport.WebSocketTransport.Disconnect` | packages/core/src/transport/websocket/index.ts:122-124 | exactly the queued pending promises resolve to false, the queue is emptied, and all invariants are kept |
| `Transport.WebSocketTransport.Clear` | packages/core/src/transport/websocket/index.ts:215-216 | the channel's nonce and marks are gone, every other slot of the store is untouched, and the sending half keeps all its invariants unless the item in hand is on its way to that channel |
| `Sender.ProcessQueueKeepsQueueOrder` | packages/core/src/transport/websocket/index.ts:297-306 | waking the queue keeps publish order and takes the head in hand with no nonce given to it or a later item |
| `Sender.FinishKeepsQueueOrder` | packages/core/src/transport/websocket/index.ts:308-314 | shifting whatever is at the head, the item in hand or another, keeps publish order and nonce order |
| `Transport.WebSocketTransport.Resume` | packages/core/src/transport/websocket/index.ts:281-292 | a suspended drain goes from reading to writing the next nonce, to publishing under it, to settling true iff the attempt landed; the store's nonce records stay the machine's counters at every await |
| `Transport.WebSocketTransport.Reject` | packages/core/src/transport/websocket/index.ts:311-315 | a failed attempt other than the fifth only schedules the next one under the same nonce; the fifth, or a failed store access, rejects the promise and takes up the next item |
| `Transport.WebSocketTransport.PublishWithRetry` | packages/core/src/transport/websocket/index.ts:287-291 | publishing an item succeeds iff one of its five attempts does |
| `Transport.WebSocketTransport.DrainAlone` | packages/core/src/transport/websocket/index.ts:302-319 | the uninterrupted loop empties the queue by one round per item |
| `Transport.DrainSettlesAndNumbers` | packages/core/src/transport/websocket/index.ts:297-320 | those rounds send each item iff one of its attempts succeeds, leave other promises alone, and number the items in queue order after each channel's last nonce |
| `Retrying.RetryCourse` | packages/core/src/utils/retry.ts:19-33 | for every course of attempts, lost acknowledgements included: the machine resolves the promise to true iff one of five attempts is acknowledged and rejects it otherwise, goes on with the next item, and the relay holds the one message once per attempt that reached it |
| `Retrying.RetryKeepsTrying` | packages/core/src/transport/websocket/index.ts:281-292 | until then the promise stays pending, the item at the head, and every attempt uses the same nonce |
| `Retrying.FailuresInCourse` | packages/core/src/utils/retry.ts:22-29 | an item given up has failed five times, one that gets through as often as there were attempts before the first acknowledged one |
| `Retrying.StoreFailureRejects` | packages/core/src/transport/websocket/index.ts:311-315 | a failed store access is not retried: the promise is rejected at once and the next item is taken up |
| `Retrying.MachineRound` | packages/core/src/transport/websocket/index.ts:302-316 | the undisturbed machine, from the read of the nonce to the next item, is one round of the loop |
| `Retrying.ConnectedDrains` | packages/core/src/transport/websocket/index.ts:297-320 | a transport that connects with messages waiting and is left alone ends as all rounds of the loop do |
| `Transport.ChannelReceiver.HandleIncomingMessage` | packages/core/src/transport/websocket/index.ts:233-246 | a message of another client is suspended, any other is dropped; nothing is emitted or stored; at-most-once is kept if the start was safe |
| `Transport.ChannelReceiver.Resume` | packages/core/src/transport/websocket/index.ts:246-258 | a suspended call compares, persists, and only then emits, or drops the message iff the marks do not parse; at-most-once is kept |
| `Transport.ChannelReceiver.FetchHistory` | packages/core/src/transport/websocket/index.ts:264-269 | the fetched publications go through the filter one after the other, and none gets through while the marks do not parse; only this channel's marks change |
| `SharedConnection.SharedCentrifuge.constructor` | packages/core/src/transport/websocket/shared-centrifuge.ts:120-145 | a new instance takes one reference, making the context if there is none |
| `SharedConnection.SharedCentrifuge.NewSubscription` | packages/core/src/transport/websocket/shared-centrifuge.ts:245-267 | counts a channel once per instance, subscribes only the first, throws iff the context is gone |
| `SharedConnection.SharedCentrifuge.GetSubscription` | packages/core/src/transport/websocket/shared-centrifuge.ts:273-284 | found iff this instance holds the channel and the context still has it |
| `SharedConnection.SharedCentrifuge.Subscriptions` | packages/core/src/transport/websocket/shared-centrifuge.ts:299-312 | exactly the channels this instance holds and the context still has |
| `SharedConnection.SharedCentrifuge.RemoveSubscription` | packages/core/src/transport/websocket/shared-centrifuge.ts:408-412 | gives back one count, without checking that the instance holds it |
| `SharedConnection.SharedCentrifuge.Disconnect` | packages/core/src/transport/websocket/shared-centrifuge.ts:168-194 | releases every held channel and one reference once; the last one out arms the deletion of the context (what then becomes of it: `ContextIff`, `ReenteredFresh`) |
| `SharedConnection.SharedCentrifuge.ClearChannel` | packages/core/src/transport/websocket/index.ts:215-219 | the transport removes a channel only if this instance holds it |
| `SharedConnection.SharedCentrifuge.DisconnectTransport` | packages/core/src/transport/websocket/index.ts:126-137 | a transport whose state is disconnected keeps channels and reference; otherwise removing every held subscription first and then disconnecting equals disconnecting, and each removal is of a held channel |
| `SharedConnection.SubscriptionProxy.Close` | packages/core/src/transport/websocket/shared-centrifuge.ts:52-59 | however often a proxy is closed, it gives its channel back once |
| `SharedConnection.AllowedKeepsExact` | packages/core/src/transport/websocket/shared-centrifuge.ts:356-371 | allowed operations keep refcount the number of live instances and each count the number of live holders, with an entry and a real subscription iff positive |
| `SharedConnection.ExactIff` | packages/core/src/transport/websocket/shared-centrifuge.ts:168-194 | from an exact state the counts stay exact under an operation iff it is allowed |
| `SharedConnection.LiveIff` | packages/core/src/transport/websocket/shared-centrifuge.ts:168-176 | in every good run an instance is live on a url iff it was made there and not disconnected since |
| `SharedConnection.ContextIff` | packages/core/src/transport/websocket/shared-centrifuge.ts:183-190 | in every good run a url has a context iff it was entered and no "disconnected" event has come since while nobody was live there |
| `SharedConnection.ReenteredFresh` | packages/core/src/transport/websocket/shared-centrifuge.ts:120-145 | once the last live instance has left and the event has come, the context is gone, the url may be entered again, and starts over with one reference and no channels |
| `SharedConnection.SharedRefinesPrivate` | packages/core/src/transport/websocket/shared-centrifuge.ts:245-312 | in every good run each instance's answers equal those of a private client, and the real subscriptions are the union of the live instances' sets |
| `SharedConnection.HearsExactly` | packages/core/src/transport/websocket/shared-centrifuge.ts:67-70 | in every good run a publication of a channel reaches an instance once if it holds the channel, and once more for every time it gave the channel up while another kept the real subscription |
| `SharedConnection.HearsAsPrivateIff` | packages/core/src/transport/websocket/index.ts:169-187 | an instance hears a channel as often as with a private client iff it never gave the channel up while another kept the real subscription |
| `SharedConnection.OthersKeepTheirs` | packages/core/src/transport/websocket/shared-centrifuge.ts:408-412 | no operation of one instance removes a real subscription another holds |
| `SharedConnection.EnteringWhileClosingStrands` | packages/core/src/transport/websocket/shared-centrifuge.ts:183-190 | example beside `ExactIff`: an instance made while the context is closing is left without a context and cannot subscribe |
| `SharedConnection.KeptReferenceKeepsContext` | packages/core/src/transport/websocket/index.ts:126-128 | while an instance has not itself been disconnected, whatever the others do, its reference counts and its context is neither closed nor deleted |
| `SessionStore.SessionStore.Create` | packages/core/src/session-store/index.ts:41-45 | opening a store drops exactly the listed records that are stale when read, with their entries, whatever state a crash left it in |
| `SessionStore.SessionStore.Set` | packages/core/src/session-store/index.ts:55-79 | from any state: refuses iff the expiry is past or no number; otherwise exactly this record and this list entry are there afterwards, a known id keeping its place; consistent stores stay so |
| `SessionStore.SessionStore.Get` | packages/core/src/session-store/index.ts:86-117 | from any state: answers iff the record is readable and unexpired; a stale record is gone afterwards with its entry, and nothing else changes |
| `SessionStore.SessionStore.List` | packages/core/src/session-store/index.ts:123-133 | for any list without duplicates: exactly the listed sessions usable when read, in the list's order; stale ones are gone, entries without a record stay |
| `SessionStore.SessionStore.Delete` | packages/core/src/session-store/index.ts:139-143 | from any state: removes exactly this record and this list entry |
| `SessionStore.SessionStore.AddToMasterList` | packages/core/src/session-store/index.ts:182-190 | adds an id once, at the end, and touches no record |
| `SessionStore.SessionStore.RemoveFromMasterList` | packages/core/src/session-store/index.ts:196-202 | removes every occurrence of an id and touches no record |
| `SessionStore.CrashBreaksOne` | packages/core/src/session-store/index.ts:74-78 | example beside `CompletedCallHeals`: stopping between record and list puts at most this id out of step, and does so iff the list does not already agree with the new record |
| `SessionStore.CompletedCallHeals` | packages/core/src/session-store/index.ts:139-143 | the next completed set or delete of an id brings it back into step, and a get that deletes does too |
| `SessionBook.SetThenGet` | packages/core/src/session-store/index.ts:55-117 | set saves exactly the sessions whose expiry is infinite or not past, a refused one changes nothing; what was saved comes back unchanged iff its expiry is finite and not past when read; other ids read as before and a new id is listed last |
| `SessionBook.ReadNext` | packages/core/src/session-store/index.ts:127-130 | reading the k-th entry of a list being purged finds that entry and removes it iff it is not live |
| `SessionBook.StepAgrees` | packages/core/src/session-store/index.ts:41-143 | one operation, create included, on the purging store and on a map that never forgets give the caller the same result, lists in order, and stay in agreement |
| `SessionBook.PurgingIsInvisible` | packages/core/src/session-store/index.ts:86-133 | over every sequence of operations under a non-decreasing clock, results equal those of a map that never forgets and looks at the clock when reading; a list holds all live sessions, each once, in the order of insertion |
| `SessionBook.OneInsertionOrder` | packages/core/src/session-store/index.ts:123-133 | the reference determines the list: two lists in insertion order are equal |
| `SessionInterleaving.ListMatchesRecords` | packages/core/src/session-store/index.ts:55-79 | for every interleaving in which no mutator starts while an opposite one of its id has not joined the mutex: no duplicates in the list, and every quiet id is listed iff its record exists |
| `SessionInterleaving.AloneIsWhole` | packages/core/src/session-store/index.ts:74-78 | with other calls suspended before the mutex, a set or delete that runs uninterrupted leaves record and list entry, or neither, and all else as it was |
| `SessionInterleaving.GetAloneIsWhole` | packages/core/src/session-store/index.ts:86-117 | a get that reads an unusable record is a delete, any other changes nothing |
| `SessionInterleaving.ClashIff` | packages/core/src/session-store/index.ts:139-143 | starting a set or delete keeps that in every continuation iff every opposite mutator of the id has joined the first-in-first-out mutex |
| `SessionInterleaving.StepKeepsInv` | packages/core/src/session-store/index.ts:182-202 | every allowed step, before, in the queue of and inside the mutex, keeps the invariant behind it |
| `Clients.BaseClient.Disconnect` | packages/core/src/base-client.ts:117-126 | forgets the session in memory and its record, and no other |
| `Clients.BaseClient.Resume` | packages/core/src/base-client.ts:92-111 | connected with the stored session iff it exists, its key is valid and both transport calls succeed; otherwise disconnected with none; the store is untouched |
| `Clients.BaseClient.Reconnect` | packages/core/src/base-client.ts:70-82 | a failed reconnect disconnects but keeps the session in memory |
| `Clients.BaseClient.SendMessage` | packages/core/src/base-client.ts:145-163 | an expired session is disconnected and removed before the throw; otherwise nothing changes |
| `Clients.DappClient.Connect` | packages/dapp-client/src/client.ts:109-152 | performs its script up to the first fault; then connected with the final session stored, or disconnected with no session and no record under the request's id; other records untouched |
| `Clients.DappClient.ExecuteUntrusted` | packages/dapp-client/src/handlers/untrusted-connection-handler.ts:33-42 | the handler's steps in order, and what it leaves to clean up at each fault |
| `Clients.DappClient.ExecuteTrusted` | packages/dapp-client/src/handlers/trusted-connection-handler.ts:34-41 | the same in trusted mode |
| `Clients.WalletClient.Connect` | packages/wallet-client/src/client.ts:79-125 | the same for the wallet, with the exact set of records removed on failure |
| `Clients.WalletClient.ExecuteUntrusted` | packages/wallet-client/src/handlers/untrusted-connection-handler.ts:31-42 | the wallet handler's steps in order; the session is its own only after the two subscriptions |
| `Clients.WalletClient.ExecuteTrusted` | packages/wallet-client/src/handlers/trusted-connection-handler.ts:33-41 | the wallet handler's steps in order; the session is its own from the start |
| `Clients.WalletClient.FailedConnectCleansIff` | packages/wallet-client/src/client.ts:116-124 | over all places of failure: every failing connect leaves nothing under the request's id iff, before the call, there was no record under it other than the left-over session's |
| `Clients.WalletClient.FailedConnectSparesOthersIff` | packages/wallet-client/src/client.ts:118-122 | over all places of failure: every connect leaves all other records alone iff, before the call, no other stored session was left over from a failed reconnect |
| `Clients.WalletClient.OtherSessionLost` | packages/wallet-client/src/client.ts:118-122 | a run of resume, failing reconnect and a connect that fails at the transport loses the first session's record |
| `ChannelNames.StripThenPrefix` | packages/wallet-client/src/handlers/untrusted-connection-handler.ts:67 | for every uuid, stripping `session:` and prefixing it again give the channel name back |
| `Handshake.StepKeepsInv` | packages/dapp-client/src/handlers/untrusted-connection-handler.ts:33-42 | every event of any dApp, wallet or the repeating relay keeps the invariant behind the theorems below |
| `Handshake.RunKeepsInv` | packages/wallet-client/src/handlers/untrusted-connection-handler.ts:31-42 | hence it holds in every run |
| `Handshake.FinalMirrors` | packages/dapp-client/src/handlers/untrusted-connection-handler.ts:118-126 | the final session made from a wallet's offer is that wallet's session seen from the other end |
| `Handshake.Agreement` | packages/wallet-client/src/client.ts:162-172 | a connected dApp's session mirrors exactly one wallet session: same id, same channel, each peer key the other's key; that wallet scanned this dApp's request, and its offer, the one the dApp took, stands in the handshake channel |
| `Handshake.UntrustedCorrespondence` | packages/wallet-client/src/client.ts:144-153 | in untrusted mode a wallet is connected only if the dApp whose request it scanned accepted that wallet's own non-empty OTP, mirrors its session and sent it the acknowledgement, which stands sealed to the wallet in its session channel after the point it subscribed at |
| `Handshake.OneWalletPerRequest` | packages/dapp-client/src/handlers/untrusted-connection-handler.ts:36-40 | at most one wallet per untrusted request is connected |
| `Handshake.SubscribedBeforePublication` | packages/wallet-client/src/handlers/trusted-connection-handler.ts:37-38 | whatever a dApp published for a wallet, that wallet had subscribed to its session channel and sent its offer before; in the session channel it stands after the point of subscription |
| `Handshake.DappSubscribedBeforePublication` | packages/dapp-client/src/handlers/untrusted-connection-handler.ts:133-136 | in untrusted mode whatever a wallet publishes in the session channel for its dApp stands after the point the dApp subscribed at |
| `Handshake.PromptDecides` | packages/dapp-client/src/handlers/untrusted-connection-handler.ts:81-109 | an untrusted dApp goes past its prompt iff its inputs accept the non-empty OTP of the offer; a cancelled or exhausted prompt has failed the run |
| `Handshake.DappStoresLate` | packages/dapp-client/src/handlers/untrusted-connection-handler.ts:33-42 | an untrusted dApp stores its session only with the OTP accepted, the session channel subscribed and the acknowledgement in it; a trusted one subscribes only after storing; both clear the handshake channel last |
| `Handshake.WalletStoresLate` | packages/wallet-client/src/handlers/untrusted-connection-handler.ts:31-42 | a wallet stores its session only after subscribing and offering, in untrusted mode only once acknowledged, and clears the handshake channel after that |
| `Handshake.DappMessageReaches` | packages/core/src/base-client.ts:145-163 | what a connected dApp sends is appended to the session channel of the one wallet it mirrors, sealed to it, and nowhere else |
| `Handshake.WalletMessageReaches` | packages/core/src/base-client.ts:145-163 | what a connected wallet sends is appended to its session channel, sealed to the dApp it scanned, which mirrors the session |
| `Handshake.NoChannelShared` | packages/wallet-client/src/client.ts:162-172 | in every run no two requests, no two wallet sessions, and no request and session use one channel |
| `Handshake.FreshHandshakeCompletes` | packages/dapp-client/src/handlers/trusted-connection-handler.ts:34-41 | from every reachable state a new request can still be carried through to two connected clients whose sessions mirror each other, in either mode |

## Left out

- Centrifuge, WebSockets and the relay itself: an append-only log per channel, a retained window and connection events stand for them; `history_ttl` is not modelled.
- ECIES, base64, JSON and uuids: sealed messages open only with the matching key, keys and ids are fresh, values survive serialisation. A store value of the wrong shape reads as `Unreadable`; a master list that parses but is no array is not modelled.
- Numbers: nonces are unbounded integers, so neither 2^53 nor fractional nonces occur; `parseInt` of a foreign nonce record is not modelled.
- Timers, suspension and liveness: timeouts are failures that may happen at any step; nothing says that a handshake or a retry ever ends.
- The OTP's deadline and the request's expiry inside the handshake runs: their checks are faults of the connect scripts.
- Several live transports on one store and channel: the delivery runs have one transport per client id, and no `clear` inside a run. `Clearing.ClearSafeIff`, `ClearedReceivers.ClearHeardIff` and `ClearedReceivers.ClearKeepsAtMostOnceIff` say what the first clear of a channel costs; frames still out from before an earlier clear of the same channel are not followed.
- A caller's `disconnect()` overlapping its own `connect`, `resume` or `reconnect`: the clients run one public call at a time.
- A shared connection without a context: `publish` on it resolves although nothing is sent; the delivery runs exclude it.
- `SharedCentrifuge.reconnect`, its promise shared by concurrent calls, option-mismatch warnings and event forwarding.
- A failing key-value store inside the master-list mutex: it would leave list and record apart in the source as well.
- `connect` with an invalid mode string: the mode is a two-valued type here.
- `initialPayload`, application message routing, `sendRequest` and `sendResponse` beyond the message they put on the channel.
- Both demo apps, `encoding-utils`, and all of the load tests but the shell quoting: they would add only easy members.
- Clients.DappClient.Connect: cleanup calls are taken to succeed, because a failing cleanup leaves whatever it failed on.
- Clients.WalletClient.Connect: likewise takes cleanup calls to succeed.
- Clients.BaseClient.Disconnect: models memory and the session record; the transport's own disconnect and clear are in `SharedCentrifuge.dfy`, `Transport.dfy`, `Clearing.dfy` and `ClearedReceivers.dfy`.
- SessionStore.SessionStore.Create: reads the entries one after another; the concurrent reads of the source are covered by `SessionInterleaving.ListMatchesRecords`, which says nothing about their results.
- ConstantTime.TimingSafeEqual: its result only, not its timing.
- SessionStore.SessionStore.List: promises nothing about a master list with duplicates, which no run produces (`SessionInterleaving.ListMatchesRecords`).
- TransportStorage.WebSocketTransportStorage.GetLatestNonces: a record of another shape that does parse, such as a bare number, counts as one that does not.
- Handshake.FreshHandshakeCompletes: says that a completing run exists, not that a given run completes.
