# Agent intercom: a verified model

Agent sessions on one machine talk to each other through a broker. Each session keeps a durable
outbox of what it sends and a durable store of what it received; the broker forwards messages,
remembers recent answers, keeps track of who waits for whose reply, and lets remote principals in
through a registry of delegated, revocable credentials. This project models these parts in Dafny
and proves what their runs promise, crashes and restarts included. `dafny verify dfyconfig.toml`
checks everything.

How it is built:

- `Framing`, `TokenBucket`: the length-prefixed wire format and the rate limiter of a connection.
- `Forest`, `RegistryModel`, `RegistryRuns`, `Delegation`, `Expiry`, `RegistryReload`,
  `AccessRegistry`: the registry as a graph of parent links, as a value with its operations, its
  runs, and the class that updates records in place with breadth-first loops.
- `BrokerModel`, `BrokerInvariant`, `BrokerSteps`, `BrokerRuns`, `DeliveryTheorems`,
  `AskTheorems`, `BrokerServer`: the broker as a value with one step for each handler and timer,
  the invariant over all its tables, runs with crashes and restarts, what they promise about
  deliveries and asks, and the class `IntercomBroker`, whose loops delete what they walk over and
  which is shown to do exactly the steps of the value.
- `Entitlement`, `SendDecision`, `DeliveryEffects`, `AskEffects`, `SessionEffects`, `Admission`,
  `EnrollmentRequests`, `Transitions`: what each operation of the broker answers and changes, stated
  over the records alone, in both directions and without the functions that compute it;
  `ReceiverEffects`, `ClientEffects` and `Reports` do the same for receivers, clients and reports.
- `InboundModel`, `InboundStore`, `RuntimeModel`, `OpenCode`, `ReplySelection`: the receiving side.
- `ClientModel`, `IntercomClients`: the sending side.
- `EndToEnd`: senders, broker and receivers composed over a network that may delay, repeat and
  reorder, where any process may crash; `OwnRuns`: each part of such a run as a run of its own;
  `PlainDelivery`: the normal course of a message; `RedirectedAsk`: a run in which an ask changes
  its addressee; `AnsweredAsk`: a run in which a deferred ask is answered.

Assumptions, all of them conditions on events or parameters and none on results:

- Random ids and secrets are fresh, and hashing is injective: a secret stands for its hash.
- The clock does not go back. The token bucket does without this assumption.
- Texts and ids are trimmed, and session ids contain no NUL, so that a (sender, message id) pair
  stands for the joined key.
- Ids of local sessions are never ids of principals, and sockets are not used twice at a time.
- Message ids are unique across senders, because the inbound store is keyed by them alone; the
  question ids of waiting calls are not empty.
- Message ids and ids looked up in the registry are not names of members that every JavaScript
  object inherits (`constructor`, `toString` and the like): the inbound store and the registry keep
  records in plain objects, where such an id would find the inherited member.
- The policy decision, lower-casing of names and whether a write succeeds are parameters; writing
  to an audit log or a socket does not throw in the broker.
- The broker's ask file and the registry hold what earlier brokers wrote. The inbound store and the
  outbox open any file, and the registry's parser reads any.
- A durable write is one atomic update of the `disk` a class carries.

Besides the tables the program has, the broker of the model carries a `history`: every delivery
ever accepted, how it ended, and which delivery carried the ask behind each edge. It influences no
decision.

## Model

| member | source | states |
|---|---|---|
| `EndToEnd.DeliveredMeansStoredFirst` | opencode/runtime.ts:321-354 | In every run of senders, broker and receivers, with crashes, reconnects and resends: whenever a sender is told `delivered`, the message is its own, it arrived at its recipient at an earlier step, nobody had been told before that step, and unless it was a reply it was on the recipient's disk in that very step. |
| `PlainDelivery.PlainMessageIsDelivered` | broker/broker.ts:926-952 | For every two sessions, every message that is not a reply and every policy that lets the one send it to the other there is a run in which the sender queues and writes it, the recipient stores it, and the sender is told so and forgets it. |
| `EndToEnd.QueuedMessageIsNotLost` | broker/client.ts:465-511 | A queued message leaves the sender's outbox only when the sender is told it was delivered, when it is told of a failure, or when the session disconnects without preserving. In the first case what was delivered, and stored by the recipient at its arrival, is that very message for that very name or id, unless the session itself wrote something else under the same message id. |
| `EndToEnd.StoredIsWhatWasSent` | opencode/runtime.ts:337-348 | If message ids are unique across senders, what a receiver keeps under the id of a delivered message is that message. |
| `EndToEnd.ReportedHasArrived` | broker/client.ts:465-481 | Every `delivered` report is backed by an arrival of that delivery at its recipient, stored at once unless it was a reply. |
| `EndToEnd.RunsAreSafe` | broker/broker.ts:1704-1743 | In every reachable world, what is delivered was acknowledged on the recipient's socket, what was acknowledged had been forwarded there, every accepted message was written to the sender's socket, and what is reported was delivered and was written to the socket on which it is reported. |
| `EndToEnd.ArrivalStores` | opencode/runtime.ts:337-351 | At its arrival a message that replies to nothing is durable before the arrival's step ends, whatever the receiver did before. |
| `OwnRuns.HandedOverAgainAfterAThousandOthers` | opencode/runtime.ts:337-348 | In a run of senders, broker and receivers a session is handed the same message as new a second time only if a thousand or more other ids have been remembered there since it was remembered. |
| `OwnRuns.ReceiverFollowsItsOwnRun` | opencode/runtime.ts:321-363 | What happens to one receiver in a run of the whole is a run of that receiver, so the theorems about its runs hold of it there. |
| `OwnRuns.BrokerFollowsItsOwnRun` | broker/broker.ts:470-1077 | What the broker does in a run of the whole is a run of the broker, so every theorem about broker runs holds of it there. |
| `RuntimeModel.HandedOverAgainAfterAThousandOthers` | opencode/runtime.ts:337-348 | However often the process restarts and the message arrives, it is handed to the session as new a second time only if it was remembered in between and a thousand or more other ids have been remembered since. |
| `RuntimeModel.StoredBeforeAcknowledged` | opencode/runtime.ts:321-351 | An arrival either wakes a local waiter for exactly that reply and touches no disk, or leaves the id durable; it is handed over as new if and only if nobody awaited it and it was not durable before. |
| `RuntimeModel.AsksAreTheStoredOnes` | opencode/runtime.ts:205-220 | In every run, restarts included, `unresolvedAsks` has exactly the keys of the store's ask records, with the messages as they arrived. |
| `InboundModel.RunsKeepOrder` | opencode/inbound-store.ts:82-126 | In every run of the store, reloads included: `records` and `delivered` are disjoint, `delivered` has no duplicates and is the last 1000 distinct ids by most recent use (an order defined independently of the code). |
| `InboundModel.RememberKeepsOrder` | opencode/inbound-store.ts:82-84 | Filtering, appending and cutting to 1000 keeps the list equal to the last 1000 ids by last occurrence of the whole history. |
| `InboundModel.NewAgainAfterAThousandOthers` | opencode/inbound-store.ts:86-94 | `enqueue` answers `new` twice for one id only if the id was remembered in between and 1000 or more other ids have been remembered since. |
| `InboundModel.AskLeavesOnlyByReply` | opencode/inbound-store.ts:110-126 | A stored ask leaves the store if and only if it is marked replied; nothing changes its entry. |
| `InboundModel.ReloadIsIdentity` | opencode/inbound-store.ts:46-57 | Whatever the store went through, loading what it saved gives the same store. |
| `InboundStore.DurableInboundStore.constructor` | opencode/inbound-store.ts:63-76 | Opens the normalised content of any file; a file that a store wrote gives a store with the same history. |
| `InboundStore.DurableInboundStore.Enqueue` | opencode/inbound-store.ts:86-94 | `delivered`, `injected`, `pending` or `new`, and the new entry is saved before the call returns. |
| `InboundStore.DurableInboundStore.MarkInjected` | opencode/inbound-store.ts:110-120 | An ask is kept as injected, any other record becomes a remembered id; an unknown id changes nothing. |
| `InboundStore.DurableInboundStore.MarkReplied` | opencode/inbound-store.ts:122-126 | Removes the record and remembers the id, also when there was no record. |
| `InboundStore.DurableInboundStore.RememberDelivered` | opencode/inbound-store.ts:82-84 | The id moves to the end of the list, the oldest beyond 1000 are dropped. |
| `InboundStore.DurableInboundStore.ListUnresolvedAsks` | opencode/inbound-store.ts:100-104 | Lists every stored ask exactly once, as stored. |
| `OpenCode.OpenCodeRuntime.constructor` | opencode/runtime.ts:205-221 | A new process restores exactly the asks of its store. |
| `OpenCode.OpenCodeRuntime.HandleIncomingMessage` | opencode/runtime.ts:321-354 | The three outcomes of an arrival; each acknowledges the delivery once, after the store was changed, if there is a client to write to, and not at all otherwise. |
| `OpenCode.OpenCodeRuntime.MarkInboundInjected` | opencode/runtime.ts:356-358 | Passes the id to the store; the asks in memory still agree with it. |
| `OpenCode.OpenCodeRuntime.MarkInboundReplied` | opencode/runtime.ts:360-363 | The ask leaves store and memory together. |
| `OpenCode.OpenCodeRuntime.WaitForReply` | opencode/runtime.ts:365-397 | Registers the waiter of one question, unless the call was cancelled before. |
| `OpenCode.OpenCodeRuntime.Disconnected` | opencode/runtime.ts:250-259 | Drops every waiter, and the client if it is still the one that lost its connection. |
| `ReplySelection.SelectionIsRight` | opencode/runtime.ts:24-44 | Exactly when `selectPendingAsk` refuses and for which reason, and otherwise: the only matching ask, or the oldest or the newest of the matching ones. |
| `ReplySelection.ShownSelectorPicks` | opencode/runtime.ts:46-53 | A reply that names the sender and repeats the selector shown in the list of pending asks answers that very ask, unless the sender's id also matches another sender. |
| `TargetResolution.ResolutionAgreesWithBroker` | opencode/runtime.ts:122-142 | On the same sessions the sender's resolution and the broker's agree: a resolved target is the broker's only candidate, an ambiguous name is ambiguous there, an unknown one is unknown or a prefix of under four characters. |
| `ClientModel.RunsAreDisciplined` | broker/client.ts:676-740 | In every run: queued ids are distinct and number at most 256, every pending send is in the outbox, and without a session nothing is pending. |
| `ClientModel.QueuedUntilAnswered` | outbound-outbox.ts:66-93 | Over every event, crashes included, a queued message leaves its file if and only if a final answer for its id arrives or a non-preserving disconnect clears the outbox. |
| `ClientModel.ReplayIsFifoPrefix` | broker/client.ts:794-805 | Registration reopens the same queue and writes its first messages in order, all of them unless a write fails. |
| `ClientModel.EnqueueIsExact` | outbound-outbox.ts:66-80 | Added at the end exactly when unknown and below 256; the same payload is `existing`, another payload a conflict, and nothing else changes. |
| `ClientModel.RemoveIsExact` | outbound-outbox.ts:82-87 | Removes exactly the entry with that id and keeps the rest a valid outbox. |
| `ClientModel.RemoveKeepsOrder` | outbound-outbox.ts:82-87 | Removal takes one entry out of its place and moves nothing else. |
| `ClientModel.WrittenIsQueued` | broker/client.ts:705-734 | A message that a send writes is pending and durably queued with the same payload. |
| `IntercomClients.PersistentOutboundOutbox.constructor` | outbound-outbox.ts:53-60 | Opens the queue that the file holds. |
| `IntercomClients.PersistentOutboundOutbox.Enqueue` | outbound-outbox.ts:66-80 | The queue and the answer of the value-level operation, persisted before returning. |
| `IntercomClients.PersistentOutboundOutbox.Remove` | outbound-outbox.ts:82-87 | Removes by id and writes only when something was removed. |
| `IntercomClients.PersistentOutboundOutbox.Clear` | outbound-outbox.ts:89-93 | Empties the queue. |
| `IntercomClients.IntercomClient.ConnectionFailed` | broker/client.ts:269-278 | A connection that fails before it is registered leaves everything else as it was. |
| `IntercomClients.IntercomClient.Registered` | broker/client.ts:415-418 | Sets the session, opens its outbox and replays it. |
| `IntercomClients.IntercomClient.ReplayOutbox` | broker/client.ts:794-805 | Writes the queued messages in order until a write fails, skipping those with a pending send. |
| `IntercomClients.IntercomClient.Send` | broker/client.ts:676-740 | Refuses when inactive or already pending, queues first, then writes; a failed write leaves the message queued but not pending. |
| `IntercomClients.IntercomClient.Answered` | broker/client.ts:465-511 | Removes the id from outbox and pending sends. |
| `IntercomClients.IntercomClient.DeliveryAccepted` | broker/client.ts:450-463 | Notes acceptance of a pending send, ignores others. |
| `IntercomClients.IntercomClient.SendTimedOut` | broker/client.ts:720-725 | The caller stops waiting; the message stays queued. |
| `IntercomClients.IntercomClient.SocketClosed` | broker/client.ts:279-300 | Clears the session and everything pending; the outbox stays. |
| `IntercomClients.IntercomClient.Disconnect` | broker/client.ts:597-606 | Fails what is pending and clears the outbox unless asks are preserved. |
| `BrokerRuns.ReachableStatesHold` | broker/broker.ts:779-966 | Every state a run of handlers, timers, crashes and restarts reaches satisfies the invariant over all tables, and its registry is a rooted forest. |
| `BrokerSteps.StepKeepsInv` | broker/broker.ts:470-1077 | Every single step keeps the invariant. |
| `BrokerRuns.RegistryFollowsItsOwnRun` | broker/broker.ts:1101-1369 | What a broker does to its registry is a run of the registry under the call discipline, so the theorems about registry runs hold of every reachable broker. |
| `BrokerRuns.OutcomeIsUniqueAndFinal` | broker/broker.ts:1704-1779 | Every accepted delivery is pending or has ended in exactly one way, and an end is final. |
| `BrokerRuns.OnlyReceiptsDeliver` | broker/broker.ts:1704-1720 | Only the recipient's own acknowledgement, on the socket the delivery was sent to, delivers. |
| `BrokerRuns.OnlyRestartsLose` | broker/broker.ts:1816-1835 | A delivery drops out of the accounts only by a restart while it was pending. |
| `BrokerRuns.OnlySendAccepts` | broker/broker.ts:926-952 | No step but a send accepts a delivery. |
| `DeliveryTheorems.PendingTableIsCoherent` | broker/broker.ts:1745-1789 | In every reachable state the two pending tables are inverse to each other, every pending delivery runs between the current sockets of two live sessions, those sockets speak for these sessions, a pending key has no final recent answer, and at most 1024 deliveries, 64 for each sender, are pending. |
| `DeliveryTheorems.AcceptedSendIsSound` | broker/broker.ts:863-952 | A send that is accepted adds exactly one delivery, between current sockets, to the one authorised session the name stands for, and a reply only to the asker of an open ask put to the sender; any other send adds none. |
| `DeliveryTheorems.FailedResendIsRouted` | broker/broker.ts:824-863 | A message that is not pending and has no final answer, above all one that failed, is accepted anew, for a given session, if and only if the limits, the one authorised target and the asks permit. |
| `DeliveryTheorems.FoundSessionsFitBest` | broker/broker.ts:1799-1814 | A name or id reaches exactly the live sessions that fit it best: an exact id beats a name, a name in any case beats the start of an id, and whatever fits worse than another is not reached. |
| `DeliveryTheorems.SessionsAreCapped` | broker/broker.ts:566-571 | In no reachable state are more than 128 sessions registered. |
| `DeliveryTheorems.LiveSessionsMatchRegistry` | broker/broker.ts:1408-1455 | A live remote session has the generation, parent and root of an active principal; a live local session is no principal. |
| `DeliveryTheorems.ReportIsAtRecordedGenerations` | broker/broker.ts:812-840 | A delivery is reported, at first hand or from the recent cache, only while both endpoints are at the generations it recorded. |
| `DeliveryTheorems.ReportDoesNotStraddle` | broker/broker.ts:1704-1720 | Between acceptance and any report of delivery neither endpoint changed generation or was revoked, at no state in between. |
| `DeliveryTheorems.NoSilentSecondDelivery` | broker/broker.ts:804-861 | Two acknowledged deliveries of one (sender, message id) are always separated by cache expiry, a resend while an endpoint was absent, at another generation or unauthorised, a revocation, adoption or expiry that disconnected an endpoint, or a restart. |
| `DeliveryTheorems.ResendIsNotForwarded` | broker/broker.ts:812-840 | Until then a resend changes no delivery and no edge: it is answered with the first delivery id, or refused when it is another message under the same id. |
| `DeliveryTheorems.SettledStaysUntilSeparated` | broker/broker.ts:1791-1797 | No other step takes the final answer of a delivered message out of the recent cache. |
| `AskTheorems.AskEdgesAreSound` | broker/broker.ts:903-926 | At most one edge for each ordered pair and at most 64 for each asker; a blocking edge has both ends connected on the sockets of the delivery that carried it, which is pending or acknowledged. |
| `AskTheorems.NewEdgesAreCarried` | broker/broker.ts:903-952 | Since the last restart, every edge is either the very ask that was there at that restart, with the same addressee and times and no carrier since, or it was carried by a delivery to its addressee that is still pending or was acknowledged, also when it took the place of a restored edge. |
| `AskTheorems.AskEndsForAReason` | broker/broker.ts:1495-1568 | No step takes an ask away, or puts another in its place, unless a delivery that carried it failed, a reply to it was delivered (by the session asked, or by one asked before the ask was sent again), its asker cancelled it, its time was over, an end unregistered without keeping its asks or was disconnected by the registry, or its asker sent it again and it now goes to another session. |
| `AskTheorems.RedirectsExactly` | broker/broker.ts:804-952 | An ask is taken away for none of the other reasons, and nobody is told, if and only if its asker sends it again while no pending delivery and no recent answer that holds stands for it, and its name or id now stands for another session to which limits and asks let it pass. |
| `AskTheorems.RedirectedElsewhere` | broker/broker.ts:1495-1513 | Then the edge under the same key goes to that session, no delivery has failed or been delivered, and any reply by the session asked before is refused as answering no ask of its own. |
| `RedirectedAsk.AcknowledgedAskIsRedirected` | broker/broker.ts:804-952 | It happens: in a run of senders, broker and receivers a session acknowledges an ask and leaves, another takes its name, the asker reconnects, replays its outbox, and its ask is redirected. |
| `AskTheorems.MutualWaitHasCounterAsk` | broker/broker.ts:910-921 | If two sessions block on each other, a pending delivery is the counter-ask that made one edge and replies to the other. |
| `AskTheorems.NoLastingMutualWait` | broker/broker.ts:910-921 | With nothing pending no two sessions block on each other. |
| `AskTheorems.CounterAskEndsMutualWait` | broker/broker.ts:1725-1727 | Acknowledging the counter-ask removes exactly the older edge, failing it exactly the newer one. |
| `AskTheorems.RestartRestoresUnexpiredEdges` | broker/broker.ts:1603-1682 | At any moment the asks on disk are those in memory, and a restart brings back exactly the unexpired ones under the same keys, all deferred. |
| `AskTheorems.PersistedAsksComeBack` | broker/broker.ts:1672-1682 | Whatever edges are written: if the broker crashes at any later time the next one has exactly those whose time is not over, deferred; the carriers of other edges are forgotten, and writing again changes nothing. |
| `AskTheorems.AcceptedAskOutlivesACrash` | broker/broker.ts:1495-1513 | The edge of an accepted ask is back after a crash, deferred, with its sender, target and times, if and only if the next broker starts before the ask's time is over. |
| `AskTheorems.ClosingAllDefersAll` | broker/broker.ts:400-423 | Closing every session leaves exactly the edges that were not waiting for a delivery, all deferred. |
| `AskTheorems.RestartRefinesClosingAll` | broker/broker.ts:1603-1670 | A crash and an orderly close of every session leave the same asks if and only if no unexpired ask was still waiting for its delivery. |
| `PlainDelivery.CrashKeepsWhatClosingDrops` | broker/broker.ts:1603-1670 | They do not always: for every two sessions and every ask the policy lets through there is a run of the broker after which a crash brings the ask back and the orderly close does not. |
| `BrokerInvariant.AcceptKeepsMutualWaits` | broker/broker.ts:903-926 | The ask checks let a mutual wait arise only together with the counter-ask that resolves it. |
| `BrokerInvariant.FailAllKeeps` | broker/broker.ts:1745-1779 | Failing any set of pending deliveries keeps the invariant. |
| `BrokerInvariant.AcknowledgeKeeps` | broker/broker.ts:1704-1743 | Acknowledging a delivery keeps the invariant. |
| `BrokerInvariant.DisconnectKeeps` | broker/broker.ts:1408-1455 | Disconnecting changed principals keeps the invariant and leaves no session of a changed principal. |
| `SendDecision.SendDecides` | broker/broker.ts:795-952 | For every state with the invariant, every speaker and every message: the answer is the one the records decide, for every answer there is. `Replayed` if and only if this very message is remembered as delivered and its sender may still reach its recipient; `DuplicateMessageId` if and only if another message under the id is remembered or pending; otherwise the pending delivery, if its ends may still reach each other; and otherwise, in this order, the limits 1024 and 64, more or less than one authorised session that fits best, the sender's own socket, a reply to no ask that was put to the sender, an ask to a session already asked, a session that waits for something else from the sender, 64 asks, or acceptance for exactly that session. |
| `SendDecision.SendChanges` | broker/broker.ts:804-952 | What a send changes in every table: an accepted message is pending with the current sockets and generations and its ask on disk, a refused one leaves at most its own overtaken delivery failed, an answered one changes nothing but the cache. |
| `SendDecision.ReplyGoesOut` | broker/broker.ts:891-925 | A reply by the one who was asked is accepted if and only if the ask is known, blocking or deferred; one that asks in turn also needs that no ask to that session is open, that the other waits for nothing else from the sender, and fewer than 64 asks of its own. |
| `SendDecision.StrangersAreDenied` | broker/broker.ts:779-803 | A send is denied, and changes nothing, if and only if nobody who may speak is on the connection. |
| `AnsweredAsk.LateAnswerIsReported` | broker/broker.ts:1704-1743 | For every two sessions, every ask and every answer that the policy lets through there is a run in which the ask is delivered, acknowledged and deferred, the answer goes out after that and is acknowledged, the one who answered is told so, and the ask is gone, in memory and on disk. |
| `Entitlement.OnlyTimeSilences` | broker/broker.ts:1457-1467 | While the invariant holds, a registered session may speak if and only if it is local or its principal's time is not over. |
| `DeliveryEffects.ReceiptDecides` | broker/broker.ts:1704-1743 | A receipt counts if and only if the recipient gives it on the socket its copy went to; then the sender is told of the delivery if and only if it may still reach the recipient at the recorded generations, and every table is exactly as that end leaves it; any other receipt changes nothing. |
| `DeliveryEffects.AcknowledgedReplyEndsAsk` | broker/broker.ts:1722-1742 | When the asker acknowledges a reply on its socket, and the policy still agrees, the reply is reported delivered and its ask is gone, in memory and on disk. |
| `DeliveryEffects.RejectionDecides` | broker/broker.ts:979-996 | A rejection by the recipient on its socket fails the delivery with a conflict, which its sender may retry; any other changes nothing. |
| `DeliveryEffects.TimeoutDecides` | broker/broker.ts:1745-1779 | A time-out fails the delivery that is still pending, and with it the ask it carried. |
| `Reports.ReceiptReports` | broker/broker.ts:1722-1742 | A receipt reports exactly one delivery, to the socket its sender is on, and exactly when the recipient gave it and the sender may still reach it. |
| `Reports.ResendReports` | broker/broker.ts:804-836 | A send is told of an earlier delivery if and only if the very message was delivered under that id and its ends may still reach each other. |
| `AskEffects.CancellingDecides` | broker/broker.ts:1021-1042 | The speaker's own ask, blocking or deferred, is gone from memory and disk if it cancels on its current socket; nothing else changes, and no other cancelling changes anything. |
| `AskEffects.DeferringDecides` | broker/broker.ts:998-1019 | The speaker's own blocking ask becomes a deferred one, on whichever socket it says so; nothing else changes. |
| `AskEffects.ExpiryDecides` | broker/broker.ts:1586-1601 | An ask goes at its time, not before, and nothing goes with it. |
| `AskEffects.RestartKeepsAsksOnly` | broker/broker.ts:1603-1670 | A new broker has the principals and exactly the unexpired asks, all deferred, and nothing else. |
| `SessionEffects.LocalRegistrationDecides` | broker/broker.ts:619-640 | A new local session is registered exactly when the connection is local and unregistered and fewer than 128 are there, a known one always; then exactly its deliveries have failed, each with its code, and exactly its asks are deferred. |
| `SessionEffects.UnregisteringDecides` | broker/broker.ts:723-754 | A session that unregisters on its current socket leaves with its asks deferred or cleared, as it says; on a replaced socket only the connection changes. |
| `SessionEffects.ClosingDecides` | broker/broker.ts:400-423 | What a closed connection takes with it, table by table, when it is its session's current one, and that it takes nothing otherwise. |
| `SessionEffects.RenamingDecides` | broker/broker.ts:1044-1056 | Only a local session on its current socket changes its name, and only its own. |
| `Admission.RemoteRegistrationDecides` | broker/broker.ts:565-618 | A remote registration adds a session if and only if the connection is remote and unregistered, fewer than 128 are there, the session is not connected, and the secret is that very principal's, at its generation, unrevoked and in time, or the token is good; a malformed credential changes nothing. |
| `Admission.CredentialAdmits` | broker/broker.ts:582-601 | With a credential the new session is that of its own principal with the principal's name, generation, parent and root, or nothing changes. |
| `Admission.TokenAdmits` | broker/broker.ts:586-590 | A token is used up when presented; while in time it makes exactly the principal that was granted, and its session. |
| `Admission.CredentialDecides` | broker/access-registry.ts:327-342 | A credential is good if and only if the secret is the principal's own and it stands at that generation, unrevoked and in time; which of the four errors is named otherwise. |
| `Admission.TokenDecides` | broker/access-registry.ts:292-325 | Exactly when a token gives a principal, and field by field which; it is gone in any case. |
| `EnrollmentRequests.RequestDecides` | broker/access-registry.ts:223-251 | A request is granted if and only if it meets ten conditions, the error otherwise names the first one it misses, and the enrolment says what was asked for. |
| `EnrollmentRequests.ChildRequestDecides` | broker/access-registry.ts:253-290 | A principal's request for a child passes if and only if it stays within the principal's own depth, count, time and permissions, and the error otherwise is that of the first it exceeds. |
| `EnrollmentRequests.DirectIssueDecides` | broker/broker.ts:1188-1246 | An administrator's request is granted below a live local session that is its own root and on no other condition than the request's; otherwise nothing changes. |
| `EnrollmentRequests.DelegatedIssueDecides` | broker/broker.ts:1248-1368 | A principal's request is granted if the policy allows it, its credential is good and the request stays within its limits; otherwise nothing changes. |
| `Transitions.RevocationDecides` | broker/broker.ts:1169-1186 | Exactly the principals whose parents lead to the revoked one are revoked, one generation on, and those of them that are connected lose their sessions, deliveries, asks and remembered answers, and nobody else loses anything. |
| `Transitions.AdoptionDecides` | broker/broker.ts:1130-1168 | A branch moves if and only if the new parent is a live local session or an active principal outside it with a clean id; then exactly the branch is moved, one generation on and under the right root, its tokens are gone and it is disconnected; otherwise nothing changes. |
| `Transitions.AdoptionIsRefusedFor` | broker/access-registry.ts:363-389 | Unknown principal, cycle or unclean id, in this order, and otherwise exactly what moves. |
| `Transitions.ExpirySweepDecides` | broker/broker.ts:1402-1406 | In whatever order by depth the sweep goes, it revokes exactly the overdue principals and everything below them, at a later generation, and disconnects exactly these. |
| `ReceiverEffects.ArrivalDecides` | opencode/runtime.ts:321-354 | An arrival wakes a call if and only if the call waits for that very reply from the sender, given by id or in any case by the name shown for it; then exactly that wait is over and nothing else changes. Otherwise it is stored, and an ask is to be answered, if and only if neither a record nor the delivered ids know it; a known one changes nothing. |
| `ReceiverEffects.LoadDecides` | opencode/inbound-store.ts:46-57 | A file gives its records and the newest thousand of its delivered ids, no file an empty store. |
| `ReceiverEffects.EnqueueDecides` | opencode/inbound-store.ts:86-94 | Each of the four answers exactly, and what is stored. |
| `ReceiverEffects.InjectionDecides` | opencode/inbound-store.ts:110-120 | An ask is marked and kept, anything else is remembered as the last delivered id, and no other record changes. |
| `ReceiverEffects.ReplyDecides` | opencode/inbound-store.ts:122-126 | The ask is gone and its id is the last delivered one; the others keep their order. |
| `ReceiverEffects.WaitsAreExact` | opencode/runtime.ts:365-397 | Which waits begin and end with a call, its end, the end of the connection and of the process. |
| `ClientEffects.SendDecides` | broker/client.ts:676-740 | For every disciplined client: a send is refused if and only if the client is not active, this very id waits for its answer, something else is queued under it, or it is new and 256 are queued, the first of these; otherwise it is queued unless it is already, and waits for its answer if and only if writing succeeds. |
| `ClientEffects.AnswerDecides` | broker/client.ts:465-511 | A final answer takes exactly its message out of the queue and its wait with it. |
| `ClientEffects.ReplayDecides` | broker/client.ts:794-805 | A replay writes exactly the queued messages whose answer nobody waits for, in order, as many as the socket takes. |
| `ClientEffects.OtherEventsDecide` | broker/client.ts:279-300 | What connecting, registering, acceptance, time-outs, closing and the end of the process do, field by field. |
| `ClientEffects.DisconnectingDecides` | broker/client.ts:597-606 | Giving up the connection ends every wait, and empties the queue unless it is to be kept. |
| `ReplySelection.SelectionDecides` | opencode/runtime.ts:24-44 | Each refusal exactly, over the asks themselves, and which ask is answered otherwise. |
| `TargetResolution.ResolutionDecides` | opencode/runtime.ts:122-142 | The very id, else the only one of that name, else from four characters on the only id that starts so; each answer exactly. |
| `BrokerServer.IntercomBroker.constructor` | broker/broker.ts:265-285 | A broker that starts from the disk of its predecessor is in the state the restart specification names, with the invariant. |
| `BrokerServer.IntercomBroker.LoadAskEdges` | broker/broker.ts:1603-1670 | Loads the unexpired edges as deferred and writes them back. |
| `BrokerServer.IntercomBroker.RemoveAskEdge` | broker/broker.ts:1515-1526 | Removes one edge and persists; an absent key changes nothing. |
| `BrokerServer.IntercomBroker.ClearAskEdgesForSession` | broker/broker.ts:1551-1568 | The loop that deletes while iterating removes exactly the edges that touch the session, and persists if it removed any. |
| `BrokerServer.IntercomBroker.DeferAskEdgesForSession` | broker/broker.ts:1570-1584 | Exactly the edges that touch the session become deferred. |
| `BrokerServer.IntercomBroker.CountAskEdgesFrom` | broker/broker.ts:1684-1692 | The number of edges from the session. |
| `BrokerServer.IntercomBroker.CountPendingDeliveriesFrom` | broker/broker.ts:1694-1702 | The number of pending deliveries from the session. |
| `BrokerServer.IntercomBroker.FailPendingDelivery` | broker/broker.ts:1745-1779 | One pending delivery leaves both tables, its ask edge is removed, and a retryable answer is cached; an unknown id changes nothing. |
| `BrokerServer.IntercomBroker.ClearPendingDeliveriesForSession` | broker/broker.ts:1781-1789 | The loop over a snapshot, which fails deliveries while it walks, fails exactly those of the session on that socket, each with its code. |
| `BrokerServer.IntercomBroker.AcknowledgePendingDelivery` | broker/broker.ts:1722-1742 | The delivery leaves both tables, the ask it replies to is resolved, and a final answer is cached. |
| `BrokerServer.IntercomBroker.PruneRecentDeliveries` | broker/broker.ts:1791-1797 | Drops exactly the expired answers. |
| `BrokerServer.IntercomBroker.IsCurrentPrincipal` | broker/broker.ts:1457-1467 | A live local session, or a live remote one whose generation the registry still validates. |
| `BrokerServer.IntercomBroker.IsAuthorized` | broker/broker.ts:1469-1477 | Both ends current and the policy agrees. |
| `BrokerServer.IntercomBroker.AnswerAgain` | broker/broker.ts:804-861 | Replays, refuses, confirms as pending, or clears the way for routing, exactly as specified. |
| `BrokerServer.IntercomBroker.RefuseAsk` | broker/broker.ts:891-925 | Why a reply or an ask is refused, if it is. |
| `BrokerServer.IntercomBroker.Forward` | broker/broker.ts:863-965 | Limits, target resolution, authorisation and ask checks, then acceptance of exactly one delivery. |
| `BrokerServer.IntercomBroker.Deliver` | broker/broker.ts:926-952 | Adds the ask edge and the delivery to both tables. |
| `BrokerServer.IntercomBroker.Send` | broker/broker.ts:779-966 | The whole handler: the new state and the answer of the specification, and the invariant. |
| `BrokerServer.IntercomBroker.MessageReceived` | broker/broker.ts:968-977 | Acknowledges, fails or ignores a receipt. |
| `BrokerServer.IntercomBroker.MessageRejected` | broker/broker.ts:979-996 | Fails the delivery when the recipient rejects it on its socket, ignores anything else. |
| `BrokerServer.IntercomBroker.DeliveryTimedOut` | broker/broker.ts:928-931 | The timer fails the delivery if it is still pending. |
| `BrokerServer.IntercomBroker.DeferAsk` | broker/broker.ts:998-1019 | Defers the session's own ask, whatever socket it came over. |
| `BrokerServer.IntercomBroker.CancelAsk` | broker/broker.ts:1021-1042 | Removes the session's own ask if the message came over its current socket. |
| `BrokerServer.IntercomBroker.AskExpired` | broker/broker.ts:1586-1601 | Removes the edge only once its time is over. |
| `BrokerServer.IntercomBroker.HandleConnection` | broker/broker.ts:335-345 | A new connection speaks for nobody. |
| `BrokerServer.IntercomBroker.RegisterLocal` | broker/broker.ts:619-640 | Registers or replaces a local session; a replaced one first loses its deliveries and has its asks deferred. |
| `BrokerServer.IntercomBroker.CheckAccess` | broker/broker.ts:582-601 | What a remote credential gives, and the enrolment it consumes. |
| `BrokerServer.IntercomBroker.RegisterRemote` | broker/broker.ts:565-618 | Admits a remote session unless full, refused or already active. |
| `BrokerServer.IntercomBroker.LeaveSession` | broker/broker.ts:406-421 | Removing the session before or after its deliveries and asks makes no difference. |
| `BrokerServer.IntercomBroker.Unregister` | broker/broker.ts:723-754 | Leaves with asks kept or cleared, and frees the socket's id in any case. |
| `BrokerServer.IntercomBroker.SocketClosed` | broker/broker.ts:400-423 | A closed socket takes its session along only if it is still the session's socket. |
| `BrokerServer.IntercomBroker.Rename` | broker/broker.ts:1044-1056 | A local session on its own socket may change its name. |
| `BrokerServer.IntercomBroker.DisconnectTransitionedPrincipals` | broker/broker.ts:1408-1455 | Taking the changed principals one by one, with their deliveries, asks, session and recent answers, gives the simultaneous disconnection of all of them. |
| `BrokerServer.IntercomBroker.RevokeSubtree` | broker/broker.ts:1169-1186 | Revokes in the registry, then disconnects. |
| `BrokerServer.IntercomBroker.AdoptSubtree` | broker/broker.ts:1130-1168 | Adopts below an active parent with the root that belongs to it, then disconnects; a refused adoption changes nothing. |
| `BrokerServer.IntercomBroker.ReconcileExpiredPrincipals` | broker/broker.ts:1402-1406 | The expiry sweep, then disconnection of what it changed. |
| `BrokerServer.IntercomBroker.IssueDirect` | broker/broker.ts:1188-1246 | Issues only below a live local session that is its own root. |
| `BrokerServer.IntercomBroker.IssueDelegated` | broker/broker.ts:1248-1368 | Issues below an authenticated principal the policy allows to delegate. |
| `BrokerServer.FailOneMore` | broker/broker.ts:1781-1789 | Failing one more delivery after a set of them is failing the larger set at once. |
| `BrokerServer.DisconnectOneMore` | broker/broker.ts:1419-1452 | Disconnecting one more principal, one socket at a time, is disconnecting the larger set at once. |
| `RegistryRuns.ReachableRegistryIsRootedForest` | broker/access-registry.ts:253-389 | In every reachable registry the parent links have no cycle among principals, and following them out of the registry ends exactly at the cached root and nowhere else. |
| `RegistryRuns.RunsAreSound` | broker/access-registry.ts:363-389 | The same, and every pending enrolment carries the root of its parent, across adoption too. |
| `RegistryRuns.RunsFence` | broker/access-registry.ts:403-424 | Over any run principals stay, generations do not fall and revoked stays revoked. |
| `RegistryRuns.TouchedGenerationsAreDead` | broker/access-registry.ts:335-342 | Once a revocation or adoption touched a principal, no generation it had before validates in any later state; after a revocation none does. |
| `RegistryRuns.TokenEnrolsAtMostOnce` | broker/access-registry.ts:292-325 | An enrolment token makes at most one principal in any run. |
| `RegistryRuns.AdoptKeepsSound` | broker/access-registry.ts:363-389 | Adoption keeps the forest rooted. |
| `Forest.LeavesAtOnePlace` | broker/access-registry.ts:344-389 | A chain leaves the registry at one place only. |
| `Forest.MovedChainLeaves` | broker/access-registry.ts:376-383 | After one link is moved outside its own subtree, every chain leaves at the place the cached roots then say. |
| `Forest.SearchIsExact` | broker/access-registry.ts:403-424 | The breadth-first search visits exactly the principals whose chain reaches the start, once each, on any links, cyclic ones included. |
| `Forest.FinishedWalkMisses` | broker/access-registry.ts:367-372 | A finished upward walk shows that the new parent is not in the subtree. |
| `Delegation.ConsumeConservesBudget` | broker/access-registry.ts:292-325 | Presenting a token keeps every budget. |
| `Delegation.ConsumeSwapsChild` | broker/access-registry.ts:292-325 | A consumed enrolment turns one pending child of its parent into one live child, or into none if the principal's own time is over by then; a refused token and every other parent leave the counts as they were or lower. |
| `Delegation.IssueSpendsOne` | broker/access-registry.ts:223-268 | Issuing below a parent keeps every budget and, with a fresh token, takes exactly one from that parent's and nothing from any other. |
| `Delegation.AdoptionFreeRunsAreDisciplined` | broker/access-registry.ts:253-290 | In adoption-free runs live children and unexpired enrolments never exceed `maxChildren`, and each child has depth one more and no wider limits or expiry. |
| `Delegation.LiveTreeIsBounded` | broker/access-registry.ts:262-272 | In adoption-free runs the live subtree of a principal with m children has at most 1 + m + ... + m^(maxDepth - depth) members. |
| `Expiry.SweepIsExact` | broker/access-registry.ts:391-401 | After the sweep no active principal is overdue, and it changed exactly the union of the subtrees of those that were. |
| `Expiry.MovesByOneExactly` | broker/access-registry.ts:391-401 | A sweep moves every changed principal by exactly one generation if and only if its order takes each ancestor before it is overtaken. |
| `Expiry.AdoptionFreeSweepMovesByOne` | broker/access-registry.ts:393-396 | In adoption-free runs the order by depth always does. |
| `Expiry.AdoptedChildMayMoveTwice` | broker/access-registry.ts:363-401 | A run of enrolments and one adoption after which the sweep by depth moves a principal twice. |
| `AccessRegistry.RemoteAccessRegistry.IssueEnrollment` | broker/access-registry.ts:223-251 | The answer and the new state of the specification, on disk. |
| `AccessRegistry.RemoteAccessRegistry.CountChildren` | broker/access-registry.ts:262-267 | The live children and the unexpired enrolments of a parent. |
| `AccessRegistry.RemoteAccessRegistry.IssueChildEnrollment` | broker/access-registry.ts:253-290 | Refusals in the order of the code, and attenuated limits. |
| `AccessRegistry.RemoteAccessRegistry.ConsumeEnrollment` | broker/access-registry.ts:292-325 | The token is gone whether or not it was still valid. |
| `AccessRegistry.RemoteAccessRegistry.AuthenticateSession` | broker/access-registry.ts:327-333 | Credential first, then validity. |
| `AccessRegistry.RemoteAccessRegistry.ValidatePrincipal` | broker/access-registry.ts:335-342 | Unknown, revoked, expired, stale, in this order, or the record. |
| `AccessRegistry.RemoteAccessRegistry.InspectSubtree` | broker/access-registry.ts:344-361 | Lists exactly the subtree, each principal once, without credentials. |
| `AccessRegistry.RemoteAccessRegistry.SubtreePrincipalIds` | broker/access-registry.ts:426-440 | Lists exactly the subtree, each id once. |
| `AccessRegistry.RemoteAccessRegistry.RevokePrincipal` | broker/access-registry.ts:403-424 | Revokes exactly the subtree while searching it, and returns each changed record once. |
| `AccessRegistry.RemoteAccessRegistry.WouldCycle` | broker/access-registry.ts:366-372 | The upward walk finds a cycle if and only if the new parent lies in the subtree. |
| `AccessRegistry.RemoteAccessRegistry.AdoptSubtree` | broker/access-registry.ts:363-389 | Moves one link, rewrites the cached roots of the subtree and drops the enrolments under it, or refuses. |
| `AccessRegistry.RemoteAccessRegistry.DueByDepth` | broker/access-registry.ts:393-395 | An order of the overdue principals by depth. |
| `AccessRegistry.RemoteAccessRegistry.ExpirePrincipals` | broker/access-registry.ts:391-401 | The state and the changed principals of the sweep over that order. |
| `AccessRegistry.RemoteAccessRegistry.PruneExpiredEnrollments` | broker/access-registry.ts:442-446 | Deletes exactly the expired enrolments while iterating. |
| `RegistryReload.ReloadIsExact` | broker/access-registry.ts:448-459 | In every run the registry a new broker loads is the one the old broker wrote. |
| `RegistryReload.LoadedCannotExceed` | broker/access-registry.ts:151-182 | Whatever the file, loaded limits are in range, and a principal saved without delegation fields can issue nothing. |
| `RegistryReload.LoadingDecides` | broker/access-registry.ts:126-186 | A file is loaded if and only if its version is 1 or 2 and every record is within the limits and under its own id; then every record is loaded as it was written, with the defaults for missing fields, and none besides. |
| `RegistryReload.ParseState` | broker/access-registry.ts:126-186 | Builds the registry record by record, or refuses the whole file for one bad record. |
| `TokenBucket.RefusesExactlyOverspending` | broker/broker.ts:444-458 | The bucket refuses a cost if and only if some window of past calls that ends now would exceed capacity + rate * elapsed once it is added. |
| `TokenBucket.EveryWindowIsBounded` | broker/broker.ts:444-458 | Accepted cost in any window is bounded by that amount. |
| `TokenBucket.BucketIsLeastSlack` | broker/broker.ts:444-458 | The level is the least slack of all windows and stays within 0 and the capacity. |
| `TokenBucket.ConnectionState.ConsumeToken` | broker/broker.ts:444-458 | Answers as the window limiter does over the connection's whole history. |
| `TokenBucket.LimitsAreExact` | broker/broker.ts:444-458 | After two quiet seconds exactly 240 tokens, or 60 on a remote connection, may be spent at once; from empty exactly 120, or 30, are earned in a second. |
| `TokenBucket.ClockIsHostClock` | broker/broker.ts:444-452 | With a clock that does not go back the limiter's clock is the host's. |
| `Framing.ReaderUndoesWriter` | broker/framing.ts:9-86 | Payloads of at most the limit that are all handled come out exactly and in order, whatever way their frames are cut into chunks, and nothing is kept. |
| `Framing.ChunkingIsInvisible` | broker/framing.ts:49-86 | Two ways of cutting the same bytes give the same messages, the same first error and the same kept bytes. |
| `Framing.NoByteIsLost` | broker/framing.ts:49-86 | Without an error no byte is lost or invented. |
| `Framing.StreamsAreDistinct` | broker/framing.ts:9-15 | Different payload sequences never share their bytes. |
| `Framing.HeaderIsBigEndian` | broker/framing.ts:9-15 | The header is the length as four bytes in network byte order, for writer and reader alike. |
| `Framing.ParseUndoesStream` | broker/framing.ts:9-86 | Parsing undoes writing on one stretch. |
| `Framing.MessageReader.Feed` | broker/framing.ts:49-86 | One chunk: the loop hands over what the chunk completes, keeps at most 4 + limit bytes, and drops the rest after an error. |
| `Framing.MessageReader.Take` | broker/framing.ts:52-62 | Moves what is wanted from the chunk to the buffer, in order, and at least one byte of it when any is wanted. |

## Left out

- Files, sockets, permissions, temporary files and process start-up: a durable write is an atomic update, a socket a number.
- Broker ownership and the spawn lock: they depend on interleavings of operating system calls.
- The body of the policy: an uninterpreted predicate over the sessions' origins, the actor, the action and the target.
- Hashing, randomness, comparison in constant time, admin credentials and TCP endpoint credentials.
- Field validation and JSON text: messages arrive typed; the fingerprint is equality of recipient, reply id, ask flag and content.
- Presence other than the name, summaries, listing, health checks, formatting, reconnect delays and the shutdown timer.
- Notices to third parties (`session_joined`, `session_left`, `ask_deferred`, `ask_cancelled`) and audit records.
- The cap on connections that have not registered, and registration time-outs: they only close sockets.
- Iteration order of maps: a loop over a map takes its keys in any order, and the results do not depend on it.
- Floating-point rounding: the token bucket counts thousandths of a token exactly.
- Pending list requests and ask controls of the client, and the remote checks on a `registered` message.
- The `read` flag and the `unread` list of a receiving session.
- Replay of stored but not yet injected messages to the host when a receiving session connects.
- `markReplied` for ids that were never stored is modelled, but the plugin only replies to stored asks.
- Longer cycles of blocking asks: the program refuses only mutual ones, and nothing is claimed about longer ones.
- AskTheorems.RestartRefinesClosingAll: an equivalence, because a crash keeps the asks whose delivery was pending while closing their sessions removes them, as PlainDelivery.CrashKeepsWhatClosingDrops shows.
- AskTheorems.RedirectsExactly: an equivalence, because adding an ask overwrites an older one under the same key and only an ask to the same session is refused, as RedirectedAsk.AcknowledgedAskIsRedirected shows.
- Expiry.MovesByOneExactly: an equivalence, because after an adoption, which keeps stored depths, the order by depth may revoke a principal twice, as Expiry.AdoptedChildMayMoveTwice shows.
- Delegation.LiveTreeIsBounded: for runs without adoption, because adoption rewrites neither depth nor limits.
- EndToEnd.DeliveredMeansStoredFirst: for a reply it promises arrival but not storage, because a reply that a local call waits for is handed to that call without being stored. It needs the assumption on inherited member names above: under such a message id the store would answer that the message is pending, and it would be acknowledged without being stored.
- EndToEnd.QueuedMessageIsNotLost: says nothing about the recipient when a failure is reported; a message reported as failed may have been stored. A late report about an earlier message under the same id may take a queued message out; the lemma names this case.
- EndToEnd.RunsAreSafe: an arrival always counts as acknowledged in the composed world, while a receiver without a client writes nothing; this only lets the broker see more acknowledgements than there are.
- BrokerServer.IntercomBroker.LoadAskEdges: the ask file holds edges that an earlier broker wrote; malformed candidates and a corrupt file, which the program skips or moves away, are not modelled.
- BrokerServer.IntercomBroker.constructor: requires that the ask file and the registry are what an earlier broker left.
- BrokerServer.IntercomBroker.RegisterLocal: requires that the id of a local session is not that of a principal.
- AccessRegistry.RemoteAccessRegistry.AdoptSubtree: requires that the new root is a valid text when the new parent is; otherwise the program throws after it has changed the parent. Every root the broker passes is one.
- RegistryReload.ParseState: which of several bad records is named in the error is not modelled, nor are the type checks of fields other than the delegation limits.
