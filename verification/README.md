# A verified model of the go-mqtt client

This project models the parts of the go-mqtt client whose correctness no single function shows, and
proves what they promise over every input, every interleaving and every run:

- **the session at QoS 0, 1 and 2** (session.go, pump.go, publish.go, adapter_tcp.go): the packet
  identifier bitmap, the send quota, the session store, the waiter table, the read loop, the publish
  path, connecting and tearing down;
- **the circuit breaker** (breaker.go): admission, epochs, probe slots and the callback queue;
- **the wire codec** (protocol/wire.go, protocol/properties.go, protocol/publish.go): variable byte
  integers, frames, property blocks, PUBLISH and acknowledgement packets;
- **topic filters** (protocol/topic.go) and inbound topic aliases (pump.go).

`dafny verify dfyconfig.toml` checks everything.

## How it is built

Each stateful component has three layers. A *value layer* says what an operation does to the
component's abstract value (`Store.Saved`, `Quota.Returned`, `Session.Handle`, `Breaker.Admitted`). A
*class* has the fields the Go type has and methods that update them in place, each proved to do what
the value layer says. A *run layer* puts the operations into a step relation and proves what every
run keeps, by an invariant that every step preserves. Formats and tables are stated twice, as the code
computes them and as the standard words them, with an if-and-only-if between the two.

| file | what it holds |
|---|---|
| Wrappers.dfy, Bits.dfy, Bytes.dfy, Utf8.dfy | results, single bits of a 64-bit word, byte strings; UTF-8 as the encoding of scalar values |
| IdAllocator.dfy, Store.dfy, Quota.dfy, Waiters.dfy | the four shared pieces of a session, each with its class |
| IdRotation.dfy | the allocator under every interleaving: who holds an identifier and when it comes round again |
| Session.dfy, Reactions.dfy, SessionRuns.dfy | reactions of the read loop; what they amount to for any peer; runs of one client: permits and identifiers |
| SignalRuns.dfy, ReplayOrder.dfy | those runs with their waiters and late signals; the order in which they replay |
| Client.dfy | the client object; each of its operations is one or a few steps of those runs |
| Qos2.dfy, Qos2Order.dfy, Qos2Reconnect.dfy, Qos2Progress.dfy, Qos0.dfy | this client's sender composed with this client's receiver over a link that drops, at every QoS |
| Teardown.dfy | the single steps of tearing down, connecting and calling, interleaved |
| Breaker.dfy, BreakerRuns.dfy, BreakerRecovery.dfy | the breaker object; many goroutines publishing through it; how it closes again |
| Registry.dfy, RegistryRuns.dfy, RegistryRollback.dfy | the subscription registry; interleaved Subscribe, failure and Unsubscribe; what failures leave behind |
| Wire.dfy, Properties.dfy, PropertyCodec.dfy, Packets.dfy | the codec, bottom up, as functions and as it runs |
| WireLayout.dfy, PropertyGrammar.dfy, PacketLayout.dfy, CodecErrors.dfy | the same formats said a second time, by byte positions and grammars, and which error is whose |
| Topic.dfy, TopicGrammar.dfy, Alias.dfy | topic filters against the level relation and by grammar; topic aliases over many links |

The grain of a session run is a whole publish attempt, a handled packet, a request, a late release, a
drop or a reconnect. The two releases a terminal acknowledgement owes may come any time after its
entry is deleted, also after a reconnect. A failed write means that the packet was not delivered.
Reading from a socket, the clock and the outcome of a write are inputs of the steps.

## What turned out not to hold

Four promises a reader might expect are false of the code. Each has a concrete run, and the exact
condition under which the promise does hold.

- *Unacknowledged sends never exceed Receive Maximum.* The seed of the quota is clamped at zero
  (adapter_tcp.go:587), so a session resumed with a smaller limit starts above it:
  `SessionRuns.ReplaySetCanExceedLimit`. `SessionRuns.UnackedWithinLimit`: the limit is kept for the
  life of a connection if and only if its replay set fits.
- *Messages arrive in publish order.* A stored PUBLISH larger than the new connection's Maximum Packet
  Size is skipped by the replay, and later messages overtake it: `Qos2Order.SkippedReplayOvertakes`.
  `Qos2Reconnect.OrderPerReconnect`: from any reachable state in order, order is kept for the life of
  the next connection if and only if its replay leaves out no QoS 2 PUBLISH the receiver has not
  recorded.
- *A failed Subscribe restores what was there.* `restoreSubscription` does not put the subscription
  identifier back, and what it puts back may be the entry of another failed call: two overlapping
  calls on a new filter both fail, and the first one's handler stays installed
  (`RegistryRollback.BothFailYetInstalled`). `RegistryRollback.RollbackExactly` says exactly when the
  filter is as it was, `RegistryRollback.FailedHandlerInstalled` exactly when the handler of a failed
  call is installed, and `RegistryRollback.OverlapNeeded` that this takes an overlapping call.
- *A result reaches the call it belongs to.* `completeOutbound` frees the identifier before it signals,
  and `signalWaiter` looks only at the identifier, whatever session it is from. In
  `SignalRuns.LateSignalReachesNewOwner` the second Publish is handed the first one's reason code while
  its own message is unacknowledged. `SignalRuns.MisdirectedExactly`: a signal goes astray if and only
  if a publish registered later under the same identifier is still waiting;
  `SignalRuns.OwnCallBeforeFreeing`: it could not before the identifier is freed.

`ValidateTopicName` and `MatchTopic` also disagree on names that read as shared subscriptions:
`Topic.SelfMatch` and `Topic.TopicNameIsFilter` say which.

## Model

| member | source | states |
|---|---|---|
| Qos2Order.ExactlyOnce | pump.go:191-348 | In every run of sender and receiver over links that drop and resume, with identifiers reused: each QoS 2 message is dispatched at most once, each message completed at the sender was dispatched, and each published message is completed or the sender still stores it or its PUBREL. |
| Qos2Reconnect.OrderPerReconnect | adapter_tcp.go:627-655 | From every reachable state in order, with an identifier to spare: QoS 2 dispatching stays in publish order in every continuation on the next connection if and only if the replay leaves out no QoS 2 PUBLISH the receiver has not recorded. |
| Qos2Reconnect.OrderLost | adapter_tcp.go:633-644 | From every such state and replay that leaves one out, one more publish and deliveries put dispatching out of order. |
| Qos2Reconnect.OrderedIsInStep | adapter_tcp.go:627-655 | Dispatching is in order exactly when what was published is what was dispatched followed by what waits in the sender's store, in replay order. |
| Qos2Order.InPublishOrder | adapter_tcp.go:627-655 | In every run in which no replay left out a QoS 2 PUBLISH the receiver had not recorded, over any number of connections, the QoS 2 messages dispatched are a prefix of those published, in order. |
| Qos2Order.SkippedReplayOvertakes | adapter_tcp.go:633-644 | A run in which a replay skips an oversized PUBLISH and a later message is dispatched first. |
| Qos2Order.RunsKeep | pump.go:191-348 | Every reachable state has each exchange in one of its legal phases at both ends and on the link; and as long as no replay left out an unseen one, the QoS 2 messages dispatched followed by those pending are those published. |
| Qos2Progress.QuietLinkIsSettled | pump.go:191-348 | In every run, once a link whose replay refused nothing has delivered its packets, every message published so far is completed at the sender and dispatched at the receiver, and no exchange is stored. |
| Qos2Progress.DeliveriesRunOut | pump.go:191-348 | Deliveries in a row, in any order, are at most as many as a weight of the packets on the link: the two sides never answer each other for ever. |
| Qos2Progress.AlwaysCanSettle | adapter_tcp.go:627-655 | From every reachable state, a cut if the link is up, one reconnect that refuses nothing, and then deliveries alone complete everything that was published. |
| Qos2Progress.KeepsMoving | adapter_tcp.go:627-655 | On such a link every open exchange always has a packet on its way. |
| Qos2Progress.RepliesWeighLess | pump.go:191-348 | Whatever is stored, the answer to a packet can cause fewer deliveries than the packet. |
| Qos2.NextKeeps | pump.go:191-348 | Sending, delivering at either end, cutting and resuming each keep the phases of all exchanges and what has been dispatched and completed. |
| Qos2.ResumeKeeps | adapter_tcp.go:627-655 | Replaying the stored entries puts every open exchange back into a phase from which it goes on, with no packet of it twice on the link. |
| Qos0.DispatchedAsTaken | pump.go:120-158 | In every run the messages below QoS 2 that are dispatched are those taken off the link, one for one and in that order; each QoS 0 message is dispatched at most once, in the order sent. |
| Qos0.ZeroLeavesNoTrace | pump.go:142-143 | In every run a QoS 0 packet taken off the link is dispatched, answered by nothing, and leaves both stores as they were. |
| Qos0.OnlyCutsLose | pump.go:120-158 | In every run a QoS 0 message that was written is dispatched by the time the channel has drained, unless the link went down first. |
| Qos0.DispatchesUnguarded | pump.go:141-157 | Whatever is stored, a packet adds its message to those dispatched below QoS 2 exactly when it is a PUBLISH below QoS 2. |
| SessionRuns.RunsKeep | publish.go:94-204 | In every run of publishes, acknowledgements, requests, late releases, drops and reconnects, permits are conserved, identifiers exclusively owned, and a published link carries the current generations. |
| SessionRuns.IdentifiersExclusive | session.go:203-263 | In every reachable state the identifiers in use are the disjoint union of those of stored exchanges, of pending requests of this generation and of releases still owed; none is 0 and none is in both legs of an exchange. |
| SessionRuns.StaleReleaseIgnored | session.go:234-243 | A release from before a discarded session changes nothing; one of this session frees its own identifier and no other. |
| SessionRuns.PermitsConserved | adapter_tcp.go:579-621 | Between two quota resets, free permits, exchanges in flight and releases owed under this generation add up to the larger of the negotiated limit and the replay set; free permits are never negative. |
| SessionRuns.LimitsStand | session.go:359-366 | Nothing but a connect changes the limit, the replay set it was seeded with or the quota generation. |
| SessionRuns.StalePermitIgnored | session.go:332-339 | A permit released under an older generation leaves the quota as it is, and no release is ever from a later generation. |
| SessionRuns.UnackedWithinLimit | adapter_tcp.go:579-589 | Unacknowledged sends stay within the limit for the whole connection if and only if its replay set does. |
| SessionRuns.ReplaySetCanExceedLimit | adapter_tcp.go:587 | A run that has two sends in flight on a connection whose limit is one. |
| Session.HandleBalanced | pump.go:191-348 | Handling any packet keeps the number and the identifiers of exchanges in flight, except for the one exchange it ends, and keeps every identifier in one leg at most. |
| Reactions.OncePerExchange | pump.go:191-242 | Against any peer and from any store: a QoS 2 PUBLISH is dispatched if and only if no QoS 2 PUBLISH of its identifier came since the last PUBREL of it, and a PUBREL is answered 0x00 or 0x92 accordingly. |
| Reactions.RecordedExactly | pump.go:191-242 | Whatever a peer sends, the record of an identifier stands exactly between a QoS 2 PUBLISH and the next PUBREL of it. |
| Reactions.BelowTwoExactly | pump.go:141-155 | For any store, a PUBLISH of QoS 0 or 1 is dispatched, leaves the store alone, and is answered, by a PUBACK of code 0, exactly at QoS 1. |
| Reactions.QosTwoExactly | pump.go:191-212 | For any store, a QoS 2 PUBLISH is dispatched exactly when no record of its identifier is found, is always answered by a PUBREC of code 0, and leaves that record and every other entry. |
| Reactions.ReleaseExactly | pump.go:227-242 | A PUBREL leaves no record, touches no other entry, and is answered 0x00 if it found one and 0x92 otherwise. |
| Reactions.EndedExactly | pump.go:289-348 | An exchange ends if and only if a PUBACK, a PUBCOMP or a PUBREC of any code from 0x80 up finds its entry; that entry alone is then gone, and nothing is answered or dispatched. |
| Reactions.AcceptedExactly | pump.go:308-348 | A PUBREC below 0x80 replaces the PUBLISH by its PUBREL and sends it; one that finds only the PUBREL repeats it, and one that finds neither answers 0x92, both without a change. |
| Client.FrameIsSteps | pump.go:72-114 | What the client object does with a packet is a receive step and, when an exchange ends, the two releases it owes, as steps of the run machine. |
| Client.EndTellsCode | pump.go:289-348 | A packet that ends an exchange gives the call waiting for it the code it carries, takes it out of the table, and tells no other call anything. |
| Client.TCPClient.constructor | adapter_tcp.go:300-330 | A new client is the initial state of the runs. |
| Client.TCPClient.HandleFrame | pump.go:72-114 | One turn of the read loop leaves store, bitmap, quota, waiters, packets written and messages delivered as the session machine says, for each outcome of writing the reply, and keeps its invariant. |
| Client.TCPClient.HandlePublish | pump.go:120-158 | QoS 0 and 1 are always dispatched and leave the store alone; QoS 0 changes nothing else and writes nothing, QoS 1 writes a PUBACK of code 0; QoS 2 is handled exactly once. |
| Client.TCPClient.HandleInboundQoS2 | pump.go:191-212 | A new identifier is dispatched, recorded and answered; a recorded one is answered only. |
| Client.TCPClient.HandleInboundPubrel | pump.go:227-242 | A recorded identifier is forgotten and completed; an unknown one is answered with 0x92. |
| Client.TCPClient.EndExchange | pump.go:295-300 | Entry, identifier and permit are given up together, under the generations of the link, and the waiter is told the code. |
| Client.TCPClient.CompleteOutbound | pump.go:289-301 | Ends the exchange stored under that identifier and kind; without one nothing changes. |
| Client.TCPClient.HandlePubrec | pump.go:308-348 | Supersedes the PUBLISH by its PUBREL, aborts on an error code, repeats the PUBREL, or disowns the identifier with 0x92. |
| Client.TCPClient.ScanStore | pump.go:443-457 | The linear scan of the snapshot finds an entry exactly when the map has it. |
| Client.TCPClient.PublishAcked | publish.go:94-204 | A granted attempt is a publish step of the run machine for each outcome of saving and writing, with the waiter table and the wire it leaves; an attempt not granted changes nothing. |
| Client.TCPClient.SendPublish | publish.go:121-171 | Saves, registers and writes in that order; on a failed write the waiter is removed and entry, identifier and permit are given back as one unit. |
| Client.TCPClient.UndoSend | publish.go:150-171 | Gives entry, identifier and permit back if no reconnect has re-accounted them, and otherwise touches nothing. |
| Client.TCPClient.WriteFrame | adapter_tcp.go:774-808 | A packet is written, refused before the wire with the link intact, or its failed write tears the link down. |
| Client.TCPClient.StartRequest | publish.go:351-356 | A request step of the run machine: an identifier of the current generation is held and its waiter registered. |
| Client.TCPClient.EndRequest | publish.go:357-373 | The waiter is removed only if it is still this request's, and the identifier freed only if no reset has happened since. |
| Client.TCPClient.InflightPermits | adapter_tcp.go:609-621 | Counting the snapshot's outbound entries gives the number of exchanges in flight. |
| Client.TCPClient.ApplySession | adapter_tcp.go:579-602 | Starts blank if the broker has no session, on a clean start, or on MQTT 5.0 with expiry 0, and keeps store and identifiers otherwise; free permits and exchanges in flight add up to the larger of the limit and the replay set, the limit being Receive Maximum on MQTT 5.0 and the configured one, or 65535, on MQTT 3.1.1. |
| Client.TCPClient.ReplaySession | adapter_tcp.go:627-655 | Writes the stored exchanges in order of first save, PUBLISHes as duplicates; on a socket that fails part way, a prefix of them. |
| Client.TCPClient.Establish | adapter_tcp.go:489-522 | The link is published after the whole replay, under the generations of the session just applied, and not at all when the replay fails. |
| Client.TCPClient.Connect | adapter_tcp.go:372-535 | Refuses while a link is published, and otherwise is a connect step of the run machine that starts as ApplySession says; a blank session sends nothing. |
| Client.TCPClient.TeardownLink | adapter_tcp.go:826-856 | Fails every waiter and the quota and clears the link, keeping store and identifiers: a drop step. |
| IdAllocator.Allocator.constructor | session.go:191-201 | A new bitmap has no identifier in use. |
| IdAllocator.Allocator.Acquire | session.go:203-219 | Returns the first free non-zero identifier in cyclic order from the cursor and marks it, or reports exhaustion with every non-zero identifier in use and nothing changed. |
| IdAllocator.Allocator.ReleaseAt | session.go:234-243 | Frees exactly that identifier when the generation is current, and is otherwise a no-op. |
| IdAllocator.Allocator.Reset | session.go:257-263 | Frees every identifier, rewinds the cursor and starts a new generation. |
| IdAllocator.FirstFreeUnique | session.go:203-219 | At most one identifier is first free from the cursor, so `Acquire` is determined. |
| IdAllocator.ExhaustedOrFirstFree | session.go:203-219 | All 65535 identifiers are in use if and only if there is no first free one. |
| IdRotation.ReuseTakesFullTurn | session.go:185-219 | In every interleaving of acquires and releases without a reset, an identifier is handed out again only after every other identifier has been in use since. |
| IdRotation.HeldUntilGivenBack | session.go:203-263 | In every interleaving an identifier that was handed out is in use until it is released under its generation or everything is reset. |
| IdRotation.NeverShared | session.go:203-263 | Between two acquires of one identifier there is a release of it under its generation, or a reset. |
| IdRotation.FailsExactly | session.go:203-219 | An acquire fails if and only if all 65535 identifiers are in use. |
| Bits.WithBitHas | session.go:212-214 | Setting a bit of a word sets that bit and leaves the other 63. |
| Bits.WithoutBitHas | session.go:240 | Clearing a bit of a word clears that bit and leaves the other 63. |
| Store.ReplayIsSaveOrder | session.go:127-179 | After any run of saves, deletes and resets, sequence numbers are distinct and the sorted map is the list that appends new keys, updates in place and forgets what is deleted. |
| Store.AppliedRefines | session.go:127-179 | Each operation on the map does to its replay order what the operation on the plain list does. |
| Store.SnapshotIsAll | session.go:159-170 | A store has one ascending snapshot only, whatever order the map is walked in. |
| Store.MemStore.Save | session.go:127-139 | A new key gets the next sequence number, an existing key keeps its own. |
| Store.MemStore.Delete | session.go:142-147 | Forgets that key and no other; an absent one changes nothing. |
| Store.MemStore.Contains | session.go:151-156 | Answers membership of the key. |
| Store.MemStore.All | session.go:159-170 | Returns every entry once, in strictly ascending sequence order. |
| Store.MemStore.Insert | session.go:166-168 | Placing an entry by its sequence number keeps the list an ascending snapshot of what has been copied so far. |
| Store.MemStore.Reset | session.go:173-179 | Empties the store and restarts the sequence. |
| Quota.Semaphore.TryAcquire | session.go:295-319 | One turn under the lock: reports failure, takes a permit, or parks on the open wake channel. |
| Quota.Semaphore.ReleaseAt | session.go:332-339 | Returns a permit and wakes everyone when the generation is current, and is otherwise a no-op. |
| Quota.Semaphore.Reset | session.go:359-366 | Reseeds, starts a generation, clears a failure and wakes everyone. |
| Quota.Semaphore.Fail | session.go:379-384 | Marks the failure and wakes everyone, keeping permits and generation. |
| Quota.NeverLosesWakeup | session.go:295-391 | In every interleaving of acquirers, releases, resets and failures, permits are never negative, and an acquirer parked on an open channel has no permit to take and no failure to report. |
| Quota.ParkedCanProceed | session.go:295-391 | A parked acquirer can run again as soon as there is a permit or a failure. |
| Quota.TryExactly | session.go:295-319 | In every interleaving an attempt reports the loss if and only if a failure came with no reset since, parks on the open channel if and only if otherwise nothing is free, and else leaves with a permit of the current generation. |
| Quota.FailedExactly | session.go:359-384 | The quota is failed exactly from a failure to the next reset. |
| Quota.PermitsAccounted | session.go:295-366 | Every step of every interleaving takes, returns or sets the permits it should and no others; only a reset starts a generation. |
| Waiters.AtMostOneResult | adapter_tcp.go:862-931 | In every run a channel is sent at most one result, by an acknowledgement of its waiter's class or by a drop. |
| Waiters.WaiterStays | adapter_tcp.go:876-916 | A waiter stays until a drop, a signal of its class, its own removal or a new registration; a late removal by an earlier owner of the identifier does not touch it. |
| Waiters.SignalReachesOwner | adapter_tcp.go:895-916 | While an identifier is not registered again, its signals can only reach the channel registered for it. |
| Waiters.ToldExactly | adapter_tcp.go:895-931 | In every run a drop tells every waiting call of the loss, a signal tells the one call of its identifier and class its code, other steps tell nobody, and no other channel changes unless its call reads it. |
| Waiters.LeavesExactly | adapter_tcp.go:862-931 | A waiter leaves the table if and only if a drop, a signal of its class, its own removal or a new registration of its identifier happens. |
| Waiters.RegistersExactly | adapter_tcp.go:862-868 | A registration gets an empty channel nobody waits on, for the class asked for, and touches no other identifier. |
| SignalRuns.LateSignalReachesNewOwner | pump.go:289-301 | For any two messages and any reason code, a run in which a PUBACK ends the first exchange, its read loop stalls across a drop and a discarded session, and its signal is delivered to the second Publish under the same identifier, whose message is still stored and unacknowledged. |
| SignalRuns.MisdirectedExactly | pump.go:289-301 | In every run a late signal fills a channel other than its own exchange's if and only if a call that published later under the same identifier is still waiting. |
| SignalRuns.TailComesFrom | pump.go:289-301 | Every late signal belongs to one publish, on whose channel it would answer, and to the acknowledgement that ended its exchange, whose code it carries. |
| SignalRuns.OwnCallBeforeFreeing | pump.go:295-298 | Before its identifier is freed, and unless the session was discarded, a signal could reach only its own call. |
| SignalRuns.TailsGoOn | pump.go:295-300 | What is left of an acknowledgement after its delete is never blocked, in any reachable state. |
| SignalRuns.RunsKeep | pump.go:289-348 | In every run of the session with its waiters, registered channels are empty and distinct, each ended exchange has one rest to finish, and what these rests owe is what the session is owed. |
| ReplayOrder.ReplayInFirstSentOrder | adapter_tcp.go:627-655 | In every session run, a connect that resumes re-sends PUBLISHes, as duplicates of the very messages, in the order of their publish attempts and PUBRELs in the order their PUBRECs were handled. |
| ReplayOrder.BornInOrder | session.go:127-139 | In every reachable state, sequence numbers are in the order of the steps that stored the entries. |
| ReplayOrder.ReplayExactly | adapter_tcp.go:627-655 | In every reachable state a replay holds exactly a PUBREL of code 0 for each stored one and, as a duplicate, each stored PUBLISH that is not too large. |
| Waiters.WaiterTable.Register | adapter_tcp.go:862-868 | Installs a fresh empty channel for the identifier. |
| Waiters.WaiterTable.Remove | adapter_tcp.go:876-882 | Removes the waiter only while it is the caller's channel. |
| Waiters.WaiterTable.Signal | adapter_tcp.go:895-916 | Delivers to and removes a waiter of the right class, leaves one of another class, and says whether there was one. |
| Waiters.WaiterTable.FailAll | adapter_tcp.go:921-931 | Whatever order the map is walked in, every registered channel gets the loss and the table is empty. |
| Teardown.RunsKeep | adapter_tcp.go:826-856 | In every interleaving of the single steps of teardown, connect and calls, the link pointer, the stages of all links, the quota, the waiters and the signals agree. |
| Teardown.LiveLinkHasQuota | adapter_tcp.go:826-856 | A published link that is not stopping has a quota that is not failed. |
| Teardown.OneLiveLink | adapter_tcp.go:372-378 | There is never more than one link that is not stopping. |
| Teardown.UnpublishedTeardownIsQuiet | adapter_tcp.go:832-834 | Tearing down a link that was never published touches no waiter, not the quota, not the pointer and not the lost signal. |
| Teardown.FailWaitersHitsOwnLink | adapter_tcp.go:846-848 | Failing the waiters of a link reaches only calls that wait on that link. |
| Teardown.NoCallStranded | adapter_tcp.go:846-848 | A call still waiting when its link is no longer the current one already holds a result. |
| Teardown.LossSignalled | adapter_tcp.go:849-854 | The loss is signalled for exactly the published links whose teardown was not asked for. |
| Breaker.Breaker.constructor | breaker.go:154-165 | The threshold is 5 and the probe limit 1 where the configured ones are not positive, and the circuit starts closed. |
| Breaker.Breaker.Switch | breaker.go:320-332 | Changes state, starts an epoch and queues the change if anyone is to be told; the same state is a no-op. |
| Breaker.Breaker.Admit | breaker.go:194-220 | Admits when closed, refuses or half-opens when open, and takes a probe slot when half-open and one is free. |
| Breaker.Breaker.Record | breaker.go:226-246 | Counts an outcome only for the epoch it was admitted under; a neutral one gives its probe slot back. |
| Breaker.Breaker.RecordSuccess | breaker.go:248-265 | Clears the failures when closed and closes on a probe of this epoch. |
| Breaker.Breaker.RecordFailure | breaker.go:267-302 | As the record step of the runs: an outcome of another epoch changes nothing, a closed circuit counts it towards the threshold, a half-open one opens again. |
| Breaker.Breaker.ClaimDrain | breaker.go:352-359 | Claims the drain unless another goroutine has it, as the claim step of the runs does. |
| Breaker.Breaker.TakeChange | breaker.go:377-390 | Hands out the oldest queued change, or ends the drain when there is none, as the take step of the runs does. |
| BreakerRuns.CallbacksInOrder | breaker.go:320-391 | In every interleaving, changes delivered, in hand and queued are the whole history in order, each change starts where the last ended, at most one goroutine drains, and a queue that is not empty has a drainer or someone about to drain. |
| BreakerRuns.NothingUndelivered | breaker.go:352-391 | Once all publishes have returned, every change has been delivered. |
| BreakerRuns.ProbesCounted | breaker.go:194-302 | In half-open the probe counter is the number of outstanding probes of this epoch and within its limit. |
| BreakerRuns.ClosesOnOwnProbe | breaker.go:248-265 | The circuit closes if and only if a probe admitted in this half-open epoch succeeds. |
| BreakerRuns.OpensOnStreak | breaker.go:267-302 | A closed circuit opens if and only if the outcomes of this epoch, neutral ones ignored, now end in as many failures as the threshold. |
| BreakerRuns.ReopensOnOwnProbe | breaker.go:276-282 | In every run a half-open circuit opens if and only if a failure is recorded for a probe admitted in this half-open epoch. |
| BreakerRuns.LeavesOpenByFirstProbe | breaker.go:194-208 | In every run an open circuit is left if and only if a publish enters after the recovery timeout; it is then half-open with that publish as its only probe. |
| BreakerRuns.AdmitsExactly | breaker.go:194-220 | In every run a publish is let through if and only if the circuit is closed, or open with the recovery timeout over, or half-open with fewer outstanding probes than the limit; one turned away changes nothing. |
| BreakerRuns.EpochsCountTransitions | breaker.go:320-332 | The epoch is the number of transitions so far. |
| BreakerRuns.RunsKeep | breaker.go:194-391 | Every reachable state keeps delivery order, the single drainer, the probe count and the failure streak. |
| BreakerRecovery.AlwaysCanClose | breaker.go:194-265 | From every reachable state that is not closed, whatever slots are taken and callbacks queued, at most one more admission, the callbacks due to the goroutine with the probe and that probe's success close the circuit. |
| BreakerRecovery.GetsToPublish | breaker.go:175-188 | An admitted goroutine gets to its publish after finitely many callback steps of its own, with the circuit unchanged. |
| RegistryRollback.RollbackExactly | adapter_tcp.go:981-1002 | In every interleaving, a rejected Subscribe leaves its filter as it was before it registered if and only if, when it is rejected, its own registration is installed, it had snapshotted what was there at registration and the subscription identifier is the same, or it was replaced and the entry is back already. |
| RegistryRollback.UndisturbedRollback | publish.go:277-302 | If nobody else registers, rolls back or removes the filter between its snapshot and its rejection, a call is undone if and only if the filter was new or had the same subscription identifier. |
| RegistryRollback.FailedHandlerInstalled | adapter_tcp.go:981-1026 | The handler of a failed Subscribe is installed if and only if, after the failure, the rollback of a call that had taken it for the earlier entry put it back, and since that step no call has registered the filter and no Unsubscribe that had snapshotted it has been granted. |
| RegistryRollback.OverlapNeeded | publish.go:277-302 | It is never installed again unless another Subscribe of the filter took its snapshot between its registration and its rejection. |
| RegistryRollback.BothFailYetInstalled | publish.go:277-302 | A run in which two overlapping calls on a new filter, with equal subscription identifiers, both fail and the first one's handler is installed. |
| RegistryRollback.UndisturbedList | adapter_tcp.go:981-1002 | If no call at all registers, rolls back or removes between its snapshot and its rejection, the whole list is as it was, each entry in its place, if and only if the filter was new or had the same subscription identifier. |
| Registry.SubscriptionRegistry.Search | adapter_tcp.go:937-958 | The scan finds the first entry of the filter, or the end. |
| Registry.SubscriptionRegistry.Snap | adapter_tcp.go:963-972 | Returns the entry of the filter, if any. |
| Registry.SubscriptionRegistry.Add | adapter_tcp.go:937-958 | Replaces in place or appends, under a fresh token, keeping filters unique. |
| Registry.SubscriptionRegistry.Restore | adapter_tcp.go:981-1002 | Puts the earlier options, handler and token back, or removes the entry, only while the token is still the caller's. |
| Registry.SubscriptionRegistry.RemoveIfCurrent | adapter_tcp.go:1014-1026 | Removes the entry only while its token is the one seen. |
| RegistryRuns.RunsKeep | publish.go:277-336 | In every interleaving filters stay unique, tokens are distinct and at most the counter, and each entry is a registration under its token, up to its subscription identifier. |
| RegistryRuns.LatestStaysInstalled | publish.go:277-336 | The handler of the latest Subscribe of a filter stays installed while that call has not failed and no Unsubscribe has taken its snapshot since. |
| Wire.AppendVarint | protocol/wire.go:252-264 | The loop appends exactly the base-128 digits of the value. |
| Wire.ReadDigits | protocol/wire.go:207-223 | The shifting loop of both readers reads what the digit grammar says, with the same errors. |
| Wire.EncodeVarintLen | protocol/wire.go:237-248 | The length function is the length of the encoding, for every value that can be written. |
| Wire.VarintBijection | protocol/wire.go:207-264 | Every value up to 268435455 is read back from its encoding, and every accepted value encodes to the very bytes read. |
| Wire.ReadersAgree | protocol/wire.go:354-370 | The stream and the cursor reader accept the same bytes as the same values. |
| Wire.StringRoundTrip | protocol/wire.go:274-289 | An encodable string is read back and an accepted string encodes to the bytes read. |
| Wire.BinaryRoundTrip | protocol/wire.go:294-303 | Binary data is read back, whatever follows. |
| Wire.BinaryCanonical | protocol/wire.go:399-411 | Accepted binary data is its length and its bytes. |
| Wire.U16RoundTrip | protocol/wire.go:331-338 | A two-byte integer is read back from what is written for it, whatever follows. |
| Wire.U32RoundTrip | protocol/wire.go:341-348 | A four-byte integer is read back from what is written for it, whatever follows. |
| Wire.U32Canonical | protocol/wire.go:341-348 | The four bytes read are the encoding of the value, which fits 32 bits. |
| Wire.Cursor.NextByte | protocol/wire.go:321-328 | Reads and advances as the reader on the bytes left, or fails. |
| Wire.Cursor.NextU16 | protocol/wire.go:331-338 | Gives 256 times the first byte plus the second and advances by two, or fails without two bytes. |
| Wire.Cursor.NextU32 | protocol/wire.go:341-348 | Gives the four bytes as a big-endian number and advances by four, or fails without four bytes. |
| Wire.Cursor.NextVarint | protocol/wire.go:354-370 | Reads and advances as the reader on the bytes left, or fails. |
| Wire.Cursor.NextString | protocol/wire.go:378-395 | Accepts only well-formed UTF-8 without U+0000 and advances past it. |
| Wire.Cursor.NextBinary | protocol/wire.go:399-411 | Reads a counted byte string within the buffer and advances past it. |
| Wire.Cursor.NextRest | protocol/publish.go:163-168 | Returns all the bytes left and leaves none. |
| Wire.NextFrame | protocol/wire.go:155-180 | The size check in 32-bit arithmetic decides as unbounded arithmetic does: nothing wraps. |
| Wire.FrameRoundTrip | protocol/wire.go:155-201 | A frame is read back from its bytes if its whole size is within the cap, and is refused as too large otherwise. |
| Wire.FrameAcceptance | protocol/wire.go:155-180 | ReadFrame accepts bytes if and only if they are one frame of total size within the cap and what follows. |
| CodecErrors.MalformedExactly | protocol/wire.go:155-223 | Bytes off a stream are malformed if and only if nothing that could follow makes them a frame or a frame that is too large. |
| CodecErrors.MoreBytes | protocol/wire.go:155-223 | Once a frame is read, or found malformed or too large, more bytes change nothing about it. |
| CodecErrors.EndIsUndecided | protocol/wire.go:155-223 | A stream that has merely ended can go on so that a frame is read or found too large. |
| CodecErrors.BlockErrors | protocol/properties.go:422-463 | Whatever the bytes, a property block that is not accepted is malformed. |
| CodecErrors.PacketErrors | protocol/publish.go:93-300 | In both dialects a PUBLISH or acknowledgement body that is not accepted is malformed. |
| WireLayout.ReadU16Exactly | protocol/wire.go:331-338 | Two bytes are read as their positional value in base 256, most significant first. |
| WireLayout.ReadU32Exactly | protocol/wire.go:341-348 | Four bytes are read as their positional value in base 256, most significant first. |
| WireLayout.U16Layout | protocol/wire.go:285-287 | What is written for a two-byte integer has that positional value. |
| WireLayout.U32Layout | protocol/properties.go:256-270 | What is written for a four-byte integer has that positional value. |
| WireLayout.VarintExactly | protocol/wire.go:354-370 | A variable byte integer is accepted if and only if it is one to four bytes, the high bit on all but the last, no superfluous zero; its value is the sum of its 7-bit digits, least significant first. |
| WireLayout.VarintLayout | protocol/wire.go:252-264 | What is written for a value up to 268435455 is such a string of that value. |
| WireLayout.StringLayout | protocol/wire.go:274-289 | A string is written if and only if it is well-formed, has no U+0000 and at most 65535 bytes: two bytes of big-endian length, then the bytes; the error says which. |
| WireLayout.ReadStringExactly | protocol/wire.go:378-395 | A string is accepted if and only if its big-endian length fits the bytes left and they are well-formed without U+0000. |
| WireLayout.BinaryLayout | protocol/wire.go:294-303 | Binary data is written as its big-endian length and its bytes if and only if it has at most 65535 bytes. |
| WireLayout.ReadBinaryExactly | protocol/wire.go:399-411 | Binary data is accepted if and only if its big-endian length fits the bytes left. |
| WireLayout.FlagsExactly | protocol/wire.go:116-144 | The flag check accepts exactly 24 of the 256 header bytes, listed. |
| Utf8.Utf8Exactly | protocol/wire.go:279 | A byte string is well-formed if and only if it is the encoding of some scalar values, surrogates and values above 0x10FFFF excluded. |
| Properties.EncodedIsDecoded | protocol/properties.go:218-463 | In every context, a property set that can be written decodes to itself and consumes exactly its block, whatever follows. |
| Properties.DecodedIsEncoded | protocol/properties.go:422-463 | Every accepted block encodes again without error, no longer than it was, to a block that decodes to the same set. |
| Properties.AllowedPerPacket | protocol/properties.go:125-153 | The table by property and the lists by packet are the same relation. |
| Properties.DecodedIsLegal | protocol/properties.go:444-520 | Every property an accepted block holds is one its packet may carry, and no number in it is forbidden. |
| Properties.KnownIsTabled | protocol/properties.go:125-153 | The identifiers the encoder writes are exactly those the decoder knows. |
| PropertyGrammar.BlockExactly | protocol/properties.go:422-481 | The bytes of a block are accepted, as a given set, if and only if they are a series of identifiers the packet may carry, each with a legal value of its type, none repeated that may not be, whose values in order make up the set. |
| PropertyGrammar.LengthExactly | protocol/properties.go:422-437 | A block is accepted if and only if its length fits the bytes left and so many bytes are an accepted series; what follows is left. |
| PropertyGrammar.ValueExactly | protocol/properties.go:528-705 | A value is accepted if and only if it is one of its type in the layout of that type, with nothing forbidden. |
| PropertyGrammar.TypesExactly | protocol/properties.go:528-705 | The identifiers of each type are those of section 2.2.2.2 of MQTT 5.0. |
| PropertyGrammar.NumbersExactly | protocol/properties.go:185-197 | The numbers forbidden to a property are those outside its legal range in the standard. |
| PropertyGrammar.SetWritten | protocol/properties.go:218-409 | A property set can be written in a packet if and only if every property it has may appear there with that value and its block is not too long. |
| PropertyCodec.DecodeLoop | protocol/properties.go:437-462 | The loop with its 64-bit mask decides as the decoder with a set of identifiers: the mask agrees with the set at every turn. |
| PropertyCodec.MaskMarks | protocol/properties.go:451-456 | Setting the bit of an identifier adds that identifier to the set the mask stands for. |
| PropertyCodec.NextProperties | protocol/properties.go:422-463 | Reads one block off the cursor, bounded to its advertised length. |
| PropertyCodec.NextValue | protocol/properties.go:489-705 | Reads the value of a property in the shape of its identifier, refusing the values the table forbids. |
| PropertyCodec.AppendProperties | protocol/properties.go:218-409 | Appends the block, or reports the first error and leaves the caller's buffer as it was. |
| PropertyCodec.AppendIds | protocol/properties.go:293-401 | The loop writes the present properties in ascending order of identifier, up to the first error. |
| PropertyCodec.AppendOne | protocol/properties.go:226-319 | Writes one identifier's properties, or says why they cannot be written in this packet. |
| PropertyCodec.AppendSubIds | protocol/properties.go:320-326 | Writes each subscription identifier in order, or refuses one out of range. |
| PropertyCodec.AppendUsers | protocol/properties.go:380-388 | Writes each user property in order, or reports the first string that cannot be written. |
| PropertyCodec.AppendString | protocol/wire.go:274-289 | Appends length and bytes of a string, or refuses it for length, encoding or U+0000. |
| PropertyCodec.AppendBinary | protocol/wire.go:294-303 | Appends length and bytes, or refuses more than 65535 bytes. |
| Packets.PublishRoundTrip | protocol/publish.go:36-158 | A PUBLISH that can be written passes the flag check and is read back, up to what its dialect or QoS 0 does not carry, if and only if its topic has no wildcard and is non-empty or aliased. |
| Packets.PublishReencodes | protocol/publish.go:93-158 | An accepted PUBLISH can be written again: same header, body no longer, read as the same packet. |
| Packets.AckRoundTrip | protocol/publish.go:208-300 | Every acknowledgement that can be written, in each short form and dialect, passes the flag check and is read back. |
| Packets.AckReencodes | protocol/publish.go:252-300 | An accepted acknowledgement can be written again in a body no longer, read as the same packet. |
| Packets.StreamRoundTrip | protocol/wire.go:155-201 | Any concatenation of sendable packets, followed by anything, is read back as the same sequence of packets. |
| PacketLayout.PublishExactly | protocol/publish.go:93-158 | A PUBLISH is accepted, as a given packet, if and only if its header is one of the ten legal ones and its body is a topic without wildcard, a non-zero identifier above QoS 0, a legal property block on MQTT 5.0 and the payload, an empty topic needing an alias. |
| PacketLayout.PublishWritten | protocol/publish.go:36-79 | A PUBLISH can be written if and only if its version, QoS, DUP, identifier, topic, properties and size are legal. |
| PacketLayout.PublishLayout | protocol/publish.go:36-79 | What is written is the header that means its QoS, DUP and RETAIN, and its topic, identifier, properties and payload in that order. |
| PacketLayout.AckExactly | protocol/publish.go:252-300 | An acknowledgement is accepted, as a given packet, if and only if its body is a non-zero identifier and then, on MQTT 5.0, nothing, a reason code, or a reason code and a legal property block. |
| PacketLayout.AckWritten | protocol/publish.go:208-242 | An acknowledgement can be written if and only if its version, type, identifier and properties are legal and it is not too large. |
| PacketLayout.AckLayout | protocol/publish.go:208-242 | What is written is the header of its type and its identifier, with the reason code and properties exactly when they say something. |
| Packets.WritePacket | protocol/wire.go:186-201 | Header, length and body go out as one frame, or the body is refused as too large. |
| Packets.WritePublish | protocol/publish.go:36-79 | Builds header and body in a buffer and writes the frame of the packet, or its first error. |
| Packets.ParsePublish | protocol/publish.go:93-158 | Reading with a cursor gives the packet of the frame, or the first error. |
| Packets.WriteAck | protocol/publish.go:208-242 | Chooses the short, the three-byte or the full form and writes the frame of the packet, or its first error. |
| Packets.ParseAck | protocol/publish.go:252-300 | Accepts each form of the dialect and nothing after it. |
| Alias.TopicIsLastSent | pump.go:166-185 | In every run over any number of links, a PUBLISH is dispatched with its own topic, or with an empty one under the last non-empty topic sent with its alias on the same link; it is refused exactly when there is none or the alias is out of range; the topic is never empty and has no wildcard. |
| Alias.Link.ResolveTopicAlias | pump.go:166-185 | Returns the topic and leaves the table with at most that alias recorded. |
| Alias.Link.HandlePublish | pump.go:120-140 | A PUBLISH that cannot be decoded or resolved yields no topic. |
| Topic.MatchIsSpec | protocol/topic.go:41-117 | On every filter the validator accepts, matching is the level relation of section 4.7 of MQTT 5.0 on the filter without its share prefix. |
| Topic.FirstByteRule | protocol/topic.go:86-94 | On a well-placed filter, the test on the first byte is the test on the first level. |
| Topic.SharePrefixTransparent | protocol/topic.go:41-94 | A legal share prefix before a non-empty unshared filter changes no match. |
| Topic.SharedRoundTrip | protocol/topic.go:41-51 | A legal share prefix is taken apart into its name and filter. |
| Topic.SelfMatch | protocol/topic.go:86-141 | A valid topic name matches itself if and only if it does not read as a shared subscription. |
| Topic.TopicNameIsFilter | protocol/topic.go:124-202 | A valid topic name is a valid filter if and only if it is not a broken shared subscription. |
| Topic.MatchLevels | protocol/topic.go:101-117 | The index loop decides the recursive level relation. |
| Topic.MatchTopic | protocol/topic.go:86-94 | Strips the share prefix, applies the dollar rule and matches the levels. |
| Topic.ValidateFilterLevels | protocol/topic.go:207-218 | The loop decides the placement of wildcards, level by level, that TopicGrammar.PlacedExactly spells out. |
| TopicGrammar.PlacedExactly | protocol/topic.go:207-218 | A text passes the level check if and only if it is the join, by slashes, of levels each without wildcards or a single +, of which the last may be a single #. |
| TopicGrammar.FilterExactly | protocol/topic.go:174-202 | A text is a valid filter if and only if it is a non-empty well-formed text of at most 65535 bytes without U+0000 and, with the prefix $share/, a non-empty name without wildcards, a slash and a non-empty such join, and without it such a join. |
| TopicGrammar.NameExactly | protocol/topic.go:124-141 | A text is a valid topic name if and only if it is such a text without + and #. |

## Left out

- Counters: the sequence number, generations, epochs and tokens are 64-bit in Go and unbounded here.
- A publish parked on the quota across a reconnect, and the window inside a failing write that publish.go:156-167 accepts, are outside the runs.
- A store call that stalls before its delete takes effect, and a handler that blocks across a teardown (pump.go:191-212, the check after dispatch), are outside the runs: handler and record are one step.
- Waiters of subscriptions replayed by Connect (adapter_tcp.go:667-727) are not among the calls of the teardown machine.
- A reply that is refused before the wire because it exceeds the peer's Maximum Packet Size (adapter_tcp.go:784-787) is an outcome of the client object, but not of the composed runs of sender and receiver, where a reply is written or lost with its link.
- The lost signal is a set of links, not a channel of capacity one.
- Quota.Semaphore.TryAcquire: one turn of the acquire loop; its parking and cancellation are steps of the machine in the same module.
- Client.TCPClient.HandlePublish: takes the decoded packet with its topic resolved (Packets.dfy and Alias.dfy do that), and the handler does not tear the link down.
- Client.TCPClient.HandleInboundQoS2: the check for a stopping link between dispatch and record, which only matters to a handler that blocks across a teardown.
- Client.TCPClient.Establish: the subscriptions that Connect replays after the stored exchanges (adapter_tcp.go:667-703).
- Client.TCPClient.Connect: dialling, the CONNACK exchange and its refusals.
- Client.TCPClient.TeardownLink: the link that is not the current one, and the lost signal; both are in Teardown.dfy.
- Client.TCPClient.PublishAcked: the outcome of saving and writing is an input, and the wait for the acknowledgement is the waiter table's.
- Client.TCPClient.WriteFrame: encoding and the socket are the outcome it is given.
- Breaker.Breaker.Record: the classification of errors as failure or neutral is an input, and so is whether the recovery timeout is over; callbacks do not panic.
- Properties.EncodedIsDecoded: fields are as wide as their Go types, and an empty text or binary field is an absent one.
- UTF-8 is the standard's table of well-formed sequences, in place of the library function.
- A peer that refuses a PUBLISH is among the packets of Session, SessionRuns and SignalRuns, where codes are arbitrary; the composed runs of sender and receiver have this client at both ends, which never refuses.
- Copying of payloads (storedCopy, readRest) has no counterpart: byte strings are values.
- CONNECT, SUBSCRIBE, UNSUBSCRIBE, CONNACK, SUBACK, UNSUBACK, DISCONNECT and AUTH packets: one direction each, or the acknowledgement argument again.
- Dialling, TLS, deadlines, the lifecycle loop, the ping watchdog, dispatch by subscription identifier, options, logging and error texts.
