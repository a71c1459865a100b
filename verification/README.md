# A verified model of the SCWebVPN gateway core

SCWebVPN gives a browser access to services behind an Agent: the browser and the Agent meet through a
Controller, then talk over WebRTC data channels on which a Wisp server multiplexes TCP streams. This
project models the parts of it that carry state and arithmetic, and proves what holds in every run of
them. It is written for Dafny 4.11; `dafny verify dfyconfig.toml` checks all of it.

Concurrent code is modelled as a state machine: one step for every region under a lock, every channel
operation, every SQL statement and every call out. A step that is not enabled does nothing, so every
sequence of steps is a run, and the theorems quantify over all sequences. Where the source is
imperative, classes and methods with loops model the code itself, and their contracts tie each call to
the steps or functions of the machine.

| files | what they model |
|---|---|
| `WispFlow`, `WispCredit`, `WispWriter` | the data path of one Wisp stream: packet credits, queue, writer, target |
| `WispFrame`, `WispServer`, `WispPackets`, `WispHandler` | the packet layout, the stream table, connection ownership, what each packet does and the handler that does it |
| `WispStreams`, `WispMessages` | all streams of one server together: the stream table beside one data path per stream, and the messages that drive both |
| `Signaling`, `SignalingRuns`, `SignalingWakeup`, `SignalingOrder`, `SignalingBroker` | the broker of offers with its long poll |
| `Store`, `Sessions`, `SessionSteps`, `SessionRuns`, `SessionExact`, `SessionLogout`, `SessionService` | browser sessions and temporary services in SQLite, with two-level leases |
| `Tokens` | binding codes and nonces |
| `Controller` | the handlers that use the store and the broker together |
| `Cidr`, `AgentPolicy`, `AgentDial` | the Agent's configuration, its compilation, name resolution and dialling |
| `AgentRuntime`, `TemporaryPeer`, `TemporaryAnswer`, `AgentPeer`, `AgentAdmission` | peers and restarts, pinned temporary targets, staged data channels |
| `OpaqueId`, `Base64Url`, `Base32`, `JsInt32`, `VirtualHost` | identifiers and the host name that browser and Agent derive from them |
| `Arith`, `Bits`, `ByteSeq`, `Clock`, `Lookup`, `Options` | shared vocabulary |

## Findings

Six expectations that the code, its names or its comments suggest do not hold. Each is stated with a run or
an input that refutes it and with the exact condition under which it does hold.

- A client that spends only the credit it was given can still be closed for throttling, because a
  CONTINUE packet tells it to set its credit while earlier packets are still on the way
  (`WispCredit.HonestClientThrottled`). Before the writer takes another packet off the queue it can be driven
  there exactly when its credit, what the CONTINUE packets it has yet to read and the one the writer is
  about to send will let it send, and the packets in flight and in the queue add up to more than 64
  (`WispCredit.ThrottleExactly`). Over its whole future an open stream can be driven there exactly when its
  writer has not stopped or that sum exceeds 64 (`WispCredit.ThrottleEver`).
- With two polls for one agent under way a wakeup can be lost. From any state in which none is lost yet, the
  calls under way can lose one exactly when two of them are for the same agent (`SignalingWakeup.WakeupExactly`);
  the Agent's loop makes one at a time.
- An agent can be handed its offers in another order than they were created in, because `Create` reads the
  clock before it takes the lock (`SignalingOrder.OvertakenCreate`). Offers can come out of order exactly when one
  that waits is older than one its agent was handed (`SignalingOrder.OrderExactly`), and a `Create` brings that
  about exactly when its clock reading is older than such an offer (`SignalingOrder.AheadExactly`).
- A session of a user can outlive a logout: a connection request that was under way may still insert its
  session (`SessionLogout.SessionOutlivesLogout`). A session of the user is unrevoked afterwards exactly when such
  a request delivered it and it was not revoked since (`SessionLogout.SessionsAfterLogout`).
- A temporary target can be pinned without anybody being told "ok", for a moment or for good, because the reply
  is sent after the target is set and may be lost (`TemporaryPeer.PinnedUntold`, `TemporaryPeer.UntoldForGood`). An
  "ok" has gone out exactly when the one preparation that pinned the target got its answer out
  (`TemporaryPeer.PinnedOnce`).
- Service identifiers are compared as text when a configuration is validated, but their host name only
  depends on the 16 bytes they decode to. Two accepted services can share a host name, and then a peer of
  the first that asks for its own name is connected to the second (`AgentDial.ShadowingHappens`). A service
  answers to its own name exactly when no later one decodes to the same bytes (`AgentDial.OwnServiceExactly`).

## Model

| member | source | states |
|---|---|---|
| `WispFlow.CreditConservation` | internal/wisp/server.go:262-282 | in every interleaving, while the stream is open and no CONTINUE is on its way, credit + DATA in transit + queued + being written + consumed since the last CONTINUE equals 64 plus the DATA that crossed the last CONTINUE |
| `WispFlow.CreditBounds` | internal/wisp/server.go:273-276 | the queue never exceeds 64 packets, so every announced value is between 0 and 64 and its conversion to uint32 never wraps, and the client never holds more than 64 |
| `WispFlow.FifoDelivery` | internal/wisp/server.go:155-285 | in every run, under arbitrary partial writes, the target has received a prefix of the accepted payloads in arrival order; a packet counts as finished only when written completely |
| `WispCredit.InternalWorkShrinks` | internal/wisp/server.go:250-285 | every step of the handler, the writer or the channel that does anything decreases the work left, so the server comes to rest under any schedule |
| `WispCredit.QuietMeansCredit` | internal/wisp/server.go:262-282 | an open stream at rest has given the client more than half of its allowance back |
| `WispCredit.NoCreditDeadlock` | internal/wisp/server.go:250-285 | from every reachable state of a connected stream the server and the channel alone return credit to the client, unless the stream is closed |
| `WispCredit.ContinuePaced` | internal/wisp/server.go:262-282 | in every run the client hears of every 32nd written packet and of no other, and the writer is never more than 32 packets ahead of the CONTINUE packets it sent |
| `WispCredit.StopIsFinal` | internal/wisp/server.go:262-285 | after a write that failed after n bytes, or when an idle writer saw its context done, the target gets nothing more in any continuation |
| `WispCredit.ThrottleNeedsCrossing` | internal/wisp/server.go:161-165 | if nothing crossed the last CONTINUE, a full queue never meets a DATA packet |
| `WispCredit.ThrottleExactly` | internal/wisp/server.go:161-165 | whatever else happens before the writer takes another packet, an open stream can end in a throttle close if and only if credit, announced and about to be announced credit, packets in flight and queued packets exceed 64 |
| `WispCredit.ThrottleEver` | internal/wisp/server.go:161-165 | over its whole future an open stream can end in a throttle close if and only if its writer has not stopped or that sum exceeds 64 |
| `WispCredit.ExposureNeverGrows` | internal/wisp/server.go:161-282 | no step but the writer taking a packet increases that sum |
| `WispCredit.HonestClientThrottled` | internal/wisp/server.go:161-165 | there is a run in which a client that never exceeds its credit is throttled |
| `WispWriter.WriteAll` | internal/wisp/server.go:362-374 | for a socket that takes any part of each write and may fail: success means every byte in order, failure a prefix, and the call is a run of the stream machine |
| `WispWriter.StreamWriter.ServeOne` | internal/wisp/server.go:263-284 | one turn of the write loop is a run of the stream machine: the packet is written whole before it is counted, and the announced value is the machine's |
| `WispFrame.ParseEncode` | internal/wisp/server.go:325-360 | parsing gives back an encoded frame exactly if its kind is known and it fits one message |
| `WispFrame.EncodeParse` | internal/wisp/server.go:348-360 | the parser accepts no second spelling of a frame |
| `WispFrame.OnTheWire` | internal/wisp/server.go:325-329 | an encoded frame is, byte by byte, its kind, its stream ID with the low byte first, and its payload |
| `WispFrame.ParsedFields` | internal/wisp/server.go:348-360 | the parser accepts exactly messages of 5 to 65536 bytes with a known kind, and reads those fields |
| `WispServer.StreamTable` | internal/wisp/server.go:139-226 | in every interleaving at most 16 streams, none before the handshake, and the table holds exactly the incarnations between their open and their close's delete |
| `WispServer.DeleteRemovesOnlyItself` | internal/wisp/server.go:308-313 | deleting by stream ID never removes another incarnation of the ID |
| `WispServer.ConnectionOwnership` | internal/wisp/server.go:228-248 | in every interleaving of connect, close and cancel, a dialled connection is closed at most once, exactly once when connect and close are both done, and a stream's close sends at most one CLOSE |
| `WispServer.ServerCloseLeaksNothing` | internal/wisp/server.go:115-126 | when the closes of the snapshot are done, every published connection of an open or closed stream has been closed exactly once, those opened after the snapshot included |
| `WispHandler.Handler.OnMessage` | internal/wisp/server.go:128-173 | from any state of the server, other goroutines in the middle of closing streams included, each message is a run of the server machine; which messages end the server, complete the handshake, or act on one stream, and the exact state after the latter; DATA that finds room is at the end of its stream's queue |
| `WispPackets.RejectsExactly` | internal/wisp/server.go:128-180 | the messages that end the server, byte by byte: a wrong length or kind; on stream 0 anything but INFO with major version 2; on any other stream everything before the handshake |
| `WispPackets.HandledIsLocal` | internal/wisp/server.go:148-172 | a packet touches only the stream its ID names, and exactly the acceptable CONNECTs make a new one |
| `WispPackets.DataHandled` | internal/wisp/server.go:155-165 | DATA is appended to its own stream's queue while that holds fewer than 64 packets, and nothing else changes; otherwise the stream is taken out of the table and closed with reason 0x49; for an ID that is not listed the only effect is a CLOSE with reason 0x41 |
| `WispPackets.CloseHandled` | internal/wisp/server.go:166-169 | CLOSE takes a listed stream out of the table, closes its connection once and is not answered; for an ID that is not listed nothing changes |
| `WispPackets.ConnectHandled` | internal/wisp/server.go:195-226 | a CONNECT opens one new stream exactly if its ID is free, it asks for TCP with a port and a host name, and fewer than 16 are listed; the refusals and their reasons 0x41 and 0x49 |
| `WispPackets.OtherHandled` | internal/wisp/server.go:170-172 | any other packet is answered with reason 0x41 |
| `WispPackets.QueueCollects` | internal/wisp/server.go:155-165 | over any sequence of packets for any streams, a listed stream's queue becomes its old content followed by the payloads of the DATA for its ID in order, cut at 64, and it stays listed exactly if there were no more and it was not closed |
| `WispHandler.Handler.HandleHandshake` | internal/wisp/server.go:175-193 | a bad INFO closes everything, the first good one sends one CONTINUE on stream 0 with the four bytes of 64, later ones change nothing |
| `WispHandler.Handler.OpenStream` | internal/wisp/server.go:195-226 | the refusals in their order with their reasons, the second look at the table included, or exactly one new stream |
| `WispHandler.Handler.Connect` | internal/wisp/server.go:228-248 | the stream gets the connection exactly if the dial succeeded and neither it nor the server was cancelled; a failure closes it with the blocked or unreachable reason, unless a close was already under way |
| `WispHandler.Handler.CloseServer` | internal/wisp/server.go:115-126 | closes every stream of the table, leaves it empty, and leaves streams that others already took out of it to them |
| `WispHandler.Handler.CloseStream` | internal/wisp/server.go:308-323 | wherever another close of the stream stands, the remaining regions are run once, with the first caller's reason and at most one CLOSE; afterwards nothing changes |
| `WispStreams.Projection` | internal/wisp/server.go:128-285 | in every run of a whole server, the server is a run of the server machine, every stream is a run of the stream machine, and both agree on the queue, on listing and on the end of the dial |
| `WispStreams.EveryStreamDelivers` | internal/wisp/server.go:128-285 | order and credit conservation for every stream of every server run, in terms of the server's own queues |
| `WispStreams.DataFindsItsStream` | internal/wisp/server.go:139-165 | although streams are found by ID and IDs may be used again, DATA on its way to a stream finds that stream or nothing |
| `WispMessages.DataIsEnqueued` | internal/wisp/server.go:155-165 | what the handler does with a DATA packet that arrives is, state for state, a lookup and an enqueue of the data path, with the close of a full queue, and a packet that finds room is the next one accepted |
| `WispMessages.ConnectIsOpen` | internal/wisp/server.go:195-226 | an accepted CONNECT is the open of a stream with a new data path |
| `WispMessages.SendIsPossible` | internal/wisp/server.go:139-165 | in every reachable state a client with credit can send on a stream of the table: no later stream of the same ID is in the way |
| `SignalingRuns.RestartChain` | internal/signaling/broker.go:101-116 | following restarts through the full history, pruned entries included, every entry has the same agent, browser session, service, user, capability and kind, and each link is under two minutes |
| `SignalingRuns.Lifecycle` | internal/signaling/broker.go:125-219 | over any run and continuation an offer goes from offered to claimed to one constant result to gone for ever, never back |
| `SignalingRuns.ClaimedAndSettledOnce` | internal/signaling/broker.go:125-186 | an offer is claimed at most once, by a poll of its own agent, and gets at most one result, only after its claim and only from its own agent |
| `SignalingRuns.ClaimIsOldest` | internal/signaling/broker.go:130-146 | a claim takes an oldest live waiting offer of the poller's own agent and changes no other entry |
| `SignalingRuns.ExpiredExactly` | internal/signaling/broker.go:213-219 | in every reachable state a call that takes the lock leaves exactly those entries that are under two minutes old, beside the one it makes |
| `SignalingRuns.OfferedAsAsked` | internal/signaling/broker.go:112-146 | in every continuation an entry, and so the offer handed out for it, carries field by field what its Create was asked |
| `SignalingRuns.OutcomeIsKept` | internal/signaling/broker.go:157-204 | from an accepted Finish on, in every continuation, the entry shows exactly the outcome that was given, for as long as it is there |
| `SignalingRuns.OutcomeWasGiven` | internal/signaling/broker.go:179-204 | over all runs a settled entry holds the very answer or failure that a Finish of its own agent gave |
| `SignalingOrder.OldestFirst` | internal/signaling/broker.go:101-148 | in every run in which the calls of Create take the lock in the order of their clock readings, every agent is handed its offers in the order of their creation |
| `SignalingOrder.OrderExactly` | internal/signaling/broker.go:127-148 | the offers that are there can be handed out in the wrong order if and only if one that waits is older than one its agent was handed |
| `SignalingOrder.AheadExactly` | internal/signaling/broker.go:101-116 | a Create brings that about if and only if it is accepted with a clock reading older than an offer its agent was handed |
| `SignalingOrder.OvertakenCreate` | internal/signaling/broker.go:101-103 | a run from the empty broker in which it happens |
| `SignalingWakeup.WakeupExactly` | internal/signaling/broker.go:125-155 | from any state in which no poll of the agent sleeps beside an offer, the calls under way can reach, from any moment on, one where one does, if and only if two of them are for this agent |
| `SignalingWakeup.NoLostWakeup` | internal/signaling/broker.go:112-155 | in every run with one poll of the agent at a time, whenever it is parked and an unclaimed offer for the agent is there, the channel holds a token |
| `SignalingWakeup.TokenMoves` | internal/signaling/broker.go:112-155 | a token comes into an agent's channel exactly with an accepted offer for the agent, and leaves it exactly when a parked poll of the agent wakes |
| `SignalingWakeup.PollMoves` | internal/signaling/broker.go:125-155 | a poll returns exactly if an offer waits when it scans or it gives up while parked, parks exactly if nothing waits, and scans again exactly with the token |
| `SignalingWakeup.TwoPollersLose` | internal/signaling/broker.go:125-155 | any two polls for one agent, scanning or parked, can lose a wakeup without a new call, at times not before any given one |
| `SignalingWakeup.TwoPollersReachable` | internal/signaling/broker.go:125-130 | two polls for one agent are reachable from the empty broker |
| `SignalingBroker.Broker.Create` | internal/signaling/broker.go:87-123 | accepts exactly the valid requests whose restart names a live entry of the same party, and then always leaves a token |
| `SignalingBroker.Broker.Scan` | internal/signaling/broker.go:127-148 | the selection loop returns an oldest waiting offer, or none waits |
| `SignalingBroker.Broker.Finish` | internal/signaling/broker.go:157-186 | which of its four verdicts is given when, the answer or failure stored under the identifier, and every other live entry unchanged |
| `SignalingBroker.Broker.Status` | internal/signaling/broker.go:188-204 | a user sees the outcome of their own live offers and nothing else |
| `SignalingBroker.Broker.Prune` | internal/signaling/broker.go:213-219 | keeps exactly the entries younger than two minutes |
| `SessionRuns.LookupInTime` | internal/session/service.go:96-122 | in every interleaving, with limits cut to whole seconds, a renewal succeeds only under 2 hours after creation and under 30 minutes after the previous renewal |
| `SessionRuns.ServiceInTime` | internal/storage/sqlite_store.go:240-280 | the same for the lease of a temporary service, and only for its owner |
| `SessionRuns.LimitsOrdered` | internal/session/service.go:77-117 | in every state the idle limit never exceeds the absolute limit, and an owned service is enabled with both limits set |
| `SessionRuns.AbsoluteLimitFixed` | internal/storage/sqlite_store.go:413-428 | the absolute limit of a session never moves, that of a temporary service not while it lives |
| `SessionRuns.TouchExactly` | internal/storage/sqlite_store.go:413-428 | a Lookup that reaches its touch fails there if and only if the session was revoked or its idle limit passed; the guard on the absolute limit never rejects a clamped renewal |
| `SessionRuns.RevokedForGood` | internal/storage/sqlite_store.go:430-452 | after a revocation no Lookup of the session succeeds any more, however far it had come, and the revocation is permanent |
| `SessionRuns.LogoutEndsSessions` | internal/controller/server.go:326-342 | once a user's sessions are revoked, no Lookup of any of those sessions, under way or to come, succeeds |
| `SessionLogout.SessionsAfterLogout` | internal/controller/server.go:326-342 | after a logout, in every continuation in which the user does not connect again, revocations included, a session of the user is unrevoked if and only if a Create that was under way at the logout delivered it and it was not revoked since |
| `SessionLogout.LogoutIsFinal` | internal/controller/server.go:326-342 | if no Create of the user is under way at the logout, no session of the user is unrevoked again until the user connects again |
| `SessionLogout.SessionOutlivesLogout` | internal/session/service.go:58-94 | a run from the empty store in which a session outlives the logout |
| `SessionLogout.CommitInserts` | internal/session/service.go:77-93 | a Create past its authorisation does insert its session at its next statement, exactly if its identifier and token are new and its service and agent exist |
| `SessionRuns.WrongCapabilityIsInert` | internal/session/service.go:96-112 | a Lookup with any other capability changes no row and no lease in any interleaving |
| `SessionRuns.DirectoryIsPermanent` | internal/storage/sqlite_store.go:206-224 | an enabled service without owner was made by CreateService, in every reachable state |
| `SessionRuns.NoResurrection` | internal/storage/sqlite_store.go:300-316 | a temporary service that expired or was revoked is, whatever happens after, never listed, authorised or renewed again |
| `SessionExact.RetiredExactly` | internal/storage/sqlite_store.go:300-316 | in every reachable state a step retires a temporary service if and only if it revokes the services of its own owner or sweeps after one of its own two limits; otherwise the service stays as it is but for its idle limit |
| `SessionExact.RevokeOwnedExactly` | internal/storage/sqlite_store.go:300-307 | a revocation disables all of the user's services, takes their owner away, and changes no other row |
| `SessionExact.LogoutEndsServices` | internal/controller/server.go:326-342 | after a logout no temporary service the user had is listed, authorised or renewed in any continuation |
| `SessionExact.AuthorizeExactly` | internal/storage/sqlite_store.go:240-280 | an uninterrupted authorisation succeeds if and only if the service is an enabled permanent one or the user's own temporary one with both limits ahead, and changes no session |
| `SessionExact.MadeForAll` | internal/storage/sqlite_store.go:318-328 | a permanent service is made exactly if its identifier and slug are free and its agent exists, is then everybody's if enabled, and changes no other row |
| `SessionExact.MadeForOne` | internal/storage/sqlite_store.go:330-357 | the same for a temporary service, which is then its owner's alone, for 30 minutes without use and two hours at most |
| `SessionExact.AuthorizeRenews` | internal/storage/sqlite_store.go:260-277 | it moves the idle limit of a temporary service to 30 minutes from now, but never past two hours after its creation, and changes nothing else of the row |
| `SessionExact.LookupExactly` | internal/session/service.go:96-122 | an uninterrupted Lookup succeeds if and only if the session is the caller's, unrevoked, presented with its own capability and with both limits ahead, and the user may use its service; it returns the session's own agent and service |
| `SessionExact.LookupRenews` | internal/session/service.go:96-122 | a successful Lookup moves the session's idle limit, and that of its temporary service, to 30 minutes from now, but never past two hours after the creation; no other session changes |
| `SessionExact.CreateExactly` | internal/session/service.go:58-94 | an uninterrupted Create succeeds if and only if the user may use the service, its agent exists and the identifier and token are new; the session starts with 30 minutes and two hours |
| `SessionService.Service.ExpireTemporaryServices` | internal/storage/sqlite_store.go:309-316 | retires exactly the overdue owned services |
| `SessionService.Service.AuthorizedService` | internal/storage/sqlite_store.go:240-280 | the statements in a row equal the machine's |
| `SessionService.RenewalSucceedsAlone` | internal/storage/sqlite_store.go:260-277 | right after the SELECT the clamped renewal finds its row |
| `SessionService.AloneAuthorizes` | internal/session/service.go:58-122 | an uninterrupted call goes through the authorisation and continues with its result |
| `SessionService.CallAlone` | internal/session/service.go:58-122 | an uninterrupted call is a run of the session machine: the call and its turns in a row |
| `SessionService.Service.Create` | internal/session/service.go:58-94 | an uninterrupted call is a run of the session machine, with the same tables and result |
| `SessionService.Service.Lookup` | internal/session/service.go:96-122 | an uninterrupted call is a run of the session machine, with the same tables and result |
| `Tokens.OneAgentPerCode` | internal/storage/sqlite_store.go:99-125 | from an empty store, in every reachable state as many agents as consumed codes, and no two agents with one key |
| `Tokens.BindAllOrNothing` | internal/storage/sqlite_store.go:99-125 | a failed insert restores the code |
| `Tokens.CodeUsedInTime` | internal/binding/binding.go:44-82 | in every reachable state a code admits an agent only under ten minutes after it was issued |
| `Tokens.CodeUsedOnce` | internal/storage/sqlite_store.go:99-125 | a code that has admitted an agent never admits another, in any continuation and for any arguments |
| `Tokens.NonceAcceptedOnce` | internal/identity/agent_auth.go:35-62 | over all interleaved verifications a nonce is accepted at most once, only for the agent it was issued to, under that agent's key, checked at most 90 seconds off the time the request claims, and under two minutes after it was issued |
| `Tokens.OneAcceptancePerNonce` | internal/identity/agent_auth.go:35-62 | however verifications interleave, no two of them are accepted on one nonce |
| `Tokens.AcceptedExactly` | internal/identity/agent_auth.go:35-62 | in every reachable state a verification that nobody interrupts is accepted, and logged, if and only if it is signed with the agent's key, at most 90 seconds off, and its nonce is the agent's, unused and under two minutes old |
| `Tokens.IssuedIsUsable` | internal/storage/sqlite_store.go:173-188 | a nonce just issued is there, unused, for its agent, for two minutes |
| `Tokens.BoundExactly` | internal/storage/sqlite_store.go:99-125 | a code binds an agent if and only if it was issued, was not used, is under ten minutes old, and neither the identifier nor the key is taken |
| `Tokens.IssuedCodeBinds` | internal/binding/binding.go:44-82 | a code just issued admits the first agent whose identifier and key are free, within ten minutes |
| `Tokens.Registry.ConsumeBindingCode` | internal/storage/sqlite_store.go:99-125 | update, insert and commit, or a rollback, with the error that says which |
| `Tokens.Registry.Verify` | internal/identity/agent_auth.go:35-62 | accepts exactly a request signed with the agent's key, at most 90 seconds off either way, with an unused, unexpired nonce of that agent, and consumes the nonce exactly then |
| `Controller.BrokerAgreesWithStore` | internal/controller/server.go:261-293 | in every reachable state each broker entry matches an existing session row in owner, agent, service and token digest |
| `Controller.HandedOffersAreOwned` | internal/controller/server.go:344-366 | every offer handed to an agent's poll, with its whole restart chain, came from the owner of a session for the agent that received it |
| `Controller.ControllerParts` | internal/controller/server.go:251-366 | every run of the handlers is a run of the session store beside a run of the broker in which only ready connection requests create offers, so the theorems about either hold of it |
| `Controller.ConnectExactly` | internal/controller/server.go:266-293 | a connection request brings one entry into the broker, with the fields of the record and waiting for its agent, if and only if the finished call was for the service asked for, the description and the record are well formed and, for a restart, the named entry is live and of the same party |
| `Cidr.PermittedExactly` | internal/agent/config.go:50-58 | the fixed list is exactly section 3 of RFC 1918, section 7 of RFC 6598, 127/8, ::1 and section 3.1 of RFC 4193 |
| `Cidr.PermittedInside` | internal/agent/config.go:267-274 | every address of a permitted prefix is in a permitted network |
| `Cidr.PermittedPrefixExactly` | internal/agent/config.go:267-274 | the check accepts a prefix if and only if it holds nothing but private addresses: no network of the list can be widened by a single bit |
| `Cidr.UnmapExactly` | internal/agent/policy.go:227-239 | exactly the IPv4 addresses mapped into IPv6 are unmapped, to the same four bytes |
| `Cidr.LoopbackExactly` | internal/agent/policy.go:124-131 | loopback is 127/8 and ::1, mapped into IPv6 or not |
| `Cidr.CheckPermitted` | internal/agent/config.go:267-274 | finds a permitted network that covers the prefix, exactly if there is one |
| `Cidr.MaskedContains` | internal/agent/policy.go:81-84 | masking a prefix changes no address's membership |
| `AgentPolicy.Validate` | internal/agent/config.go:81-117 | accepts exactly the configurations whose services are each good and repeat no identifier text and no reference |
| `AgentPolicy.ValidateService` | internal/agent/config.go:147-181 | accepts exactly the good services |
| `AgentPolicy.GoodCidrExactly` | internal/agent/config.go:163-168 | a configured CIDR is good if and only if it parses and every address in it is private |
| `AgentPolicy.ValidateTemporary` | internal/agent/config.go:119-145 | accepts exactly 1 to 32 distinct non-zero ports and permitted prefixes |
| `AgentPolicy.CompilePolicy` | internal/agent/policy.go:62-103 | succeeds exactly for valid configurations whose TLS policies build, and fills both maps in order |
| `AgentPolicy.ResolveHost` | internal/agent/policy.go:227-256 | the two loops return every candidate, or an error if there is none or one lies outside |
| `AgentDial.ResolveExactly` | internal/agent/policy.go:227-256 | for every resolver answer: addresses are used if and only if all of them lie in the configured CIDRs, and then all are private |
| `AgentDial.DialContainment` | internal/agent/policy.go:201-256 | for every validated configuration, every requested name and port and every resolver answer, a dial goes to an address inside the CIDRs, and to the port, of the configured service that holds the peer's identifier, and to a private or loopback address |
| `AgentDial.DialExactly` | internal/agent/runtime.go:338-348 | an unshadowed service is dialled if and only if the request names it and all answers lie in its CIDRs |
| `AgentDial.OwnNameDials` | internal/agent/policy.go:201-221 | asked for its own virtual name and port, an unshadowed service is dialled whenever all answers lie in its CIDRs |
| `AgentDial.DialHappens` | internal/agent/policy.go:201-221 | a configuration that meets every assumption of these theorems, with a dial that goes through |
| `AgentDial.OwnServiceExactly` | internal/agent/policy.go:85-86 | a virtual name leads to its own service if and only if no later service decodes to the same bytes |
| `AgentDial.ShadowingPasses` | internal/agent/config.go:98-110 | validation accepts any two good services with different texts for one identifier, and then a peer of the first is connected to the second, exactly when the request and the answers fit |
| `AgentDial.ShadowingHappens` | internal/agent/config.go:98-110 | a concrete pair: a peer of the service on port 8080 asks for its own name and is connected to port 9090 |
| `AgentDial.PrepareTemporary` | internal/agent/policy.go:109-142 | the checks in their order, the loop over the addresses included |
| `AgentDial.PreparedExactly` | internal/agent/policy.go:109-142 | under a validated configuration a target is prepared if and only if the request is well formed and for an allowed port, all answers lie in the temporary CIDRs, none is loopback or local, and TLS can be set up; the prepared target is then fixed |
| `AgentDial.TemporaryContainment` | internal/agent/policy.go:144-159 | after a preparation every dial is refused or goes to the vetted address: in the temporary CIDRs, private, not loopback, not local, on the allowed port |
| `AgentRuntime.RestartBudget` | internal/agent/runtime.go:162-185 | in every run a peer takes at most 2 restarts and 3 offers, all admitted by the policy, with one service, capability and kind, each restart naming an earlier offer of the same peer |
| `AgentRuntime.RestartContinues` | internal/agent/runtime.go:168-175 | a restart is answered only by the peer of its predecessor and uses up one restart |
| `AgentRuntime.RestartExactly` | internal/agent/runtime.go:168-175 | in every reachable state a restart is granted if and only if the policy admits the offer, the offer it names leads to a peer in the table with the same service, capability and kind, and that peer was restarted fewer than 2 times |
| `AgentRuntime.NewPeerExactly` | internal/agent/runtime.go:162-167 | an offer that restarts nothing gets a new peer with its fields, exactly if the policy admits it and the peer can be set up |
| `AgentRuntime.AdmitsExactly` | internal/agent/runtime.go:147-161 | under a validated configuration an offer is admitted if and only if its description and digest are sound and it is for a configured service or, where allowed, for a well-formed temporary one |
| `AgentRuntime.AnsweredIsRegistered` | internal/agent/runtime.go:176-184 | an offer that was answered leads to its peer in the table |
| `AgentRuntime.TableIsBacked` | internal/agent/runtime.go:251-258 | an entry of the peer table leads to a peer that answered an offer with that identifier |
| `AgentRuntime.CloseRemovesOwn` | internal/agent/runtime.go:391-412 | closing a peer removes only its own entries, and all it had when the close began |
| `AgentRuntime.ClosedIsGone` | internal/agent/runtime.go:391-412 | a peer closed without interruption is gone from the table, and closing it again changes nothing |
| `AgentRuntime.Runtime.AcceptOffer` | internal/agent/runtime.go:147-185 | a call is the machine's steps in a row; it succeeds exactly for the offers to be answered |
| `AgentRuntime.Runtime.BeginRestart` | internal/agent/runtime.go:241-249 | grants at most two restarts and counts each |
| `AgentRuntime.Runtime.ClosePeer` | internal/agent/runtime.go:391-412 | the loop over the aliases deletes exactly the peer's own entries, once |
| `TemporaryPeer.PinnedOnce` | internal/agent/runtime.go:474-515 | in every interleaving of preparations, with replies delayed or lost: at most 2 slots in use; the target is set if and only if one preparation, never two, pinned it; at most one "ok" goes out, if and only if that preparation got its answer out; and the target never changes |
| `TemporaryAnswer.AnsweredExactly` | internal/agent/runtime.go:462-515 | in every reachable state a request that nobody interrupts gets exactly the reply it deserves, pins exactly what was prepared for it, exactly if it is told "ok", and gives its slot back |
| `TemporaryAnswer.DiagnosticEnds` | internal/agent/runtime.go:517-518 | in every reachable state a diagnostic that is done gives its slot back |
| `TemporaryPeer.UntoldForGood` | internal/agent/runtime.go:506-514 | if the "ok" of the pinning preparation is lost, the target stays pinned and no "ok" ever goes out |
| `TemporaryPeer.PinnedUntold` | internal/agent/runtime.go:506-514 | a run to such a state, for any request that can be prepared |
| `TemporaryPeer.OneDestination` | internal/agent/runtime.go:325-336 | all dials of a temporary peer, at any two moments of any run, go to one vetted address and port that was not local when prepared |
| `AgentPeer.DialsAreEarned` | internal/agent/runtime.go:260-323 | over any messages on any channels, a dial comes only after its own channel showed a token with the peer's digest and reserved its label, as the only channel ever to do so, got its reply, sent ready and completed the Wisp handshake, in this order |
| `AgentPeer.OneServerPerLabel` | internal/agent/runtime.go:297-323 | one Wisp server per label, so at most 48 streams per peer (32 for a temporary one) |
| `AgentAdmission.AdmittedExactly` | internal/agent/runtime.go:266-323 | in every reachable state a message on a channel at its first stage admits it if and only if it is a token with the peer's digest and no channel was ever admitted under the label; anything else changes nothing |
| `AgentAdmission.DialIsReached` | internal/agent/runtime.go:260-295 | in every reachable state, a fresh channel under a free data label that shows the token, sends ready, shakes hands and opens a stream comes to its dial, through exactly these events |
| `AgentAdmission.RequestIsReached` | internal/agent/runtime.go:279-282 | a fresh control channel that shows the token hands its target request to the preparations |
| `AgentAdmission.AnnouncedExactly` | internal/agent/runtime.go:260-313 | under a validated configuration a channel is listened to if and only if it is reliable and has one of the four labels, guacamole only for a configured service of that kind |
| `AgentAdmission.RoomIsItsRun` | internal/agent/runtime.go:433-515 | in every run of a peer its temporary target is a run of the preparations in which every request came over an admitted control channel |
| `AgentPeer.PeerContainment` | internal/agent/runtime.go:325-349 | every dial ever made on any channel, in every run, went where the configuration allows, and every connection a stream holds came out of one of them |
| `AgentPeer.TemporaryPeerDialsOnePlace` | internal/agent/runtime.go:325-336 | all successful dials of a temporary peer, on all channels, have one destination |
| `VirtualHost.Accumulate` | web/src/virtual.ts:6-18 | for byte strings of any length the loop yields exactly unpadded base32, although `value` wraps at 32 bits |
| `VirtualHost.BrowserHostname` | web/src/virtual.ts:1-20 | for every identifier the Agent accepts, the browser computes the Agent's host name |
| `VirtualHost.HostnamesSeparate` | internal/agent/policy.go:258-262 | two accepted identifiers have one host name if and only if they decode to the same bytes |
| `Base32.RoundTrip` | internal/agent/policy.go:260-260 | decoding inverts the encoding of section 6 of RFC 4648 |
| `Base32.LetterTable` | internal/agent/policy.go:258-262 | the letters are those of Table 3 of RFC 4648 |
| `OpaqueId.BrowserReadsAlike` | web/src/virtual.ts:2-4 | `atob` after the character replacement reads every accepted identifier as Go does |
| `Base64Url.RoundTrip` | internal/signaling/broker.go:221-227 | reading inverts writing for byte strings of any length, with the alphabet and the groups of section 5 of RFC 4648 |
| `Base64Url.MadeIdIsValid` | internal/signaling/broker.go:221-232 | every identifier made of 16 random bytes is accepted, and browser and Agent read those bytes out of it |
| `Base64Url.AlphabetExactly` | internal/agent/config.go:213-216 | the reader knows exactly the 64 characters of Table 2 of RFC 4648, each with its number |
| `OpaqueId.SpareBits` | internal/agent/config.go:213-216 | identifiers that differ only in the spare bits of the last character are both accepted and decode alike |

## Left out

- WebRTC, ICE and DTLS: data channels are ordered queues; candidate checks, disconnect timers and buffered-amount waits are not modelled.
- Ed25519, SHA-256, HMAC, TLS and key files: a hash is a 32-byte value standing for its input, a signature is the key that made it, and TLS verdicts are parameters.
- HTTP, JSON and the Agent's HTTP client: requests are modelled after decoding.
- SQLite, its migrations and connection errors: statements are atomic functions on maps with the schema's keys; only not-found and constraint failures are modelled.
- Random identifiers: the broker's are taken to be new; elsewhere a collision is an error path.
- Validators of session descriptions, host names, STUN URLs, slugs, display names and control message fields: their verdicts are parameters, as are Go's text parsers for addresses and prefixes.
- Case folding: `strings.EqualFold` and `strings.ToLower` are parameters with the law `AgentDial.FoldLaw`, which is about lower-case ASCII only.
- Audit, presence, agent state changes (no code ever revokes an agent) and `TemporaryServiceBySlug`, which is a lookup followed by `AuthorizedService`.
- `stream.readLoop` and bytes from the target to the browser; that it gets a live connection is not claimed, since `connect` starts it with none when the stream was cancelled during a successful dial.
- The host name and port inside a CONNECT: the handler passes them to the dial function as they are, and the theorems about dials hold for every name and port.
- The port the browser asks for: it uses 80 for every Guacamole service while the Agent expects 443 when TLS is set.
- Closed peers in the peer table: `addAlias` can run after `close`, so no theorem says a closed peer is never found.
- Peer channels, labels and temporary targets are modelled on values as state machines, without the aliasing of handlers and objects; the offer table has an imperative model.
- Browser user interface, service workers and the vendored remote-desktop client.
