# lib3h in Dafny

A model of the stateful protocol cores of lib3h, the peer-to-peer library, with proofs about whole runs of them.
`dafny verify dfyconfig.toml` checks everything.

| files | what they model |
|---|---|
| `MirrorDht`, `MirrorQueries`, `PeerTable` | the full-sync DHT: one node as an object, what it answers, its peer table and timeout protocol |
| `GossipNetwork`, `GossipConvergence`, `PeerNetwork` | a network of such nodes with entry gossip, and with peer gossip, in flight |
| `Gateway`, `GatewayProofs`, `GatewayAddresses`, `GatewayLiveness`, `GatewayActor` | the gateway's retrying sends, where they go and how they end, its one-shot callbacks and its detachable members; every run of it; the actor as an object |
| `GhostChannel`, `GhostChannelProofs`, `GhostAnswers`, `GhostEndpoint` | the request/response channel between two actors: every interleaving of two endpoints, and an endpoint as an object |
| `DnsCodec`, `WireLayout`, `DnsPackets` | the mDNS packet format: printer and parser as functions, the layout byte by byte, and the cursor and buffer loops |
| `MdnsRecords`, `MdnsMessages`, `MdnsAnnounce` | the merge of record lists, the record map as an object, and what survives a trip through a packet |
| `MdnsCache`, `MdnsCacheProofs`, `MdnsQueries`, `MdnsNetwork`, `MdnsNode` | every run of an mDNS node's cache, what a node asks and answers, what one node makes of another's packets, and the node as an object |
| `Legacy` | the legacy wrapper: the tracker and the request id map as objects, and every run of them |

The pattern is the same everywhere. Code that updates fields in place is a class whose methods are proved equal to
functions on an immutable state and to keep its invariant (`Valid`); the properties are then lemmas about runs of those
functions. Clocks, random ids, network answers and failing callbacks are parameters, failing channel sends of the
gateway too, and the two ends of a ghost channel may be dropped at any step, so a lemma about all runs covers all of
them.
Hash map iteration picks an arbitrary next key.

## What the proofs found

Each of these is a lemma that shows the failing case; lemmas beside it say when the promise does hold.

- A peer record stamped ahead of the clock is reported as timed out at once, because the u64 age wraps
  (`PeerTable.FutureStampTimesOutAtOnce`), and a timed-out peer that comes back with such a record stays flagged
  (`PeerTable.FutureRefreshStaysFlagged`). Nothing else makes a flag wrong (`PeerTable.FlaggedPeersAreOld`).
- A peer learned after a broadcast is never told of it (`GossipConvergence.LatePeerMissesEntry`); with peer tables fixed
  before the first broadcast everyone is (`GossipConvergence.Convergence`).
- An entry whose first aspect is empty does not spread: receivers store nothing, and it is up to their owners to fetch and
  broadcast the content themselves (`GossipConvergence.ShallowStaysHome`); an entry broadcast once
  reaches everyone exactly when it is not like that (`GossipConvergence.BroadcastReachesAll`). Such an entry does not
  keep others from spreading.
- Nodes get to know each other whatever the order of events (`PeerNetwork.EveryoneMeets`), but a refresh of a known peer
  that arrives by gossip is not passed on, so timestamps can stay different for good (`PeerNetwork.RefreshStaysPut`),
  and a peer that is no running node is not told to nodes learned later (`PeerNetwork.LatePeerMissesOutsider`). Tables
  agree whenever every step is timely (`PeerNetwork.SettledTablesAgree`, `PeerNetwork.StepSpreadsExactlyWhen`), and on
  all nodes if records carry each node's own timestamp (`PeerNetwork.HonestTablesAgree`).
- A peer's location is the first one ever received, so it depends on the order of arrival although membership and
  timestamps do not (`PeerTable.OrderMattersForLocations`); the order does not matter exactly when the records of each
  new peer agree on its location (`PeerTable.LocationsAgreeExactlyWhen`).
- A request whose channel is closed is reported as failed but stays bookmarked, so its callback also hears a timeout
  later (`GhostChannelProofs.UnsentOnlyTimesOut`).
- An expired send may need four more process calls to end, and never more than four that serve it
  (`GatewayLiveness.ThreeAreNotEnough`, `GatewayLiveness.ExpiredSendsEnd`).
- One send can be encoded 1002 times, not 1000 or 1001 (`GatewayProofs.RetryBoundIsReached`).
- A cached record with a ttl above 255 makes the next announcement erase its url, and repeating the announcement
  restores it (`MdnsRecords.LongTtlErases`); repeated merges are harmless exactly when no announcement meets such a
  record (`MdnsRecords.MergeTwice`).
- The records of a network not cached before are stored as they come, and sorted and tidied only by the next update, so
  an unsorted or repetitive map changes when it is merged again (`MdnsCacheProofs.UnsortedChanges`,
  `MdnsCacheProofs.UpdatedTwice`); maps read from packets are sorted and tidy, so for them only the ttl matters
  (`MdnsCacheProofs.PacketTwice`).
- A node that announces itself and leaves within one `discover` of a peer stays in the peer's cache for 254 more
  rounds (`MdnsNetwork.QuickLeaveIsMissed`); section 10.1 of RFC 6762 wants it gone within a second.
- An announcement longer than the 4096-byte receive buffer arrives cut, never decodes, and makes the reader's whole
  `discover` fail without ageing its cache (`MdnsNetwork.OversizedIsLost`); an announcement is accepted exactly when it
  fits (`MdnsNetwork.AcceptedExactlyWhen`).
- Two networks announcing one url in one packet: only the first is read (`MdnsAnnounce.SharedUrlIsDropped`); a message is
  read whole exactly when no neighbours in sorted order share a url (`MdnsAnnounce.NothingDroppedExactlyWhen`).
- A direct message answered with another kind of result leaks its request id for good (`Legacy.MismatchLeaks`), and
  nothing else does (`Legacy.LiveIdsExactlyWhen`).

Where code and comments differ the model follows the code. The packet header is the one of section 4.1.1 of RFC 1035,
but names are byte strings with a 16-bit length, not the labels of section 3.1. The u64 subtractions on timestamps wrap,
as in a release build; a debug build would panic there.

## Model

| member | source | states |
|---|---|---|
| `MirrorDht.StoredAspects` | crates/lib3h/src/dht/mirror_dht.rs:263-301 | storing an entry adds exactly its aspects to exactly that entry, and there is nothing new exactly when all of them were held |
| `MirrorDht.MirrorDht.AddKnownPeer` | crates/lib3h/src/dht/mirror_dht.rs:223-259 | the object takes the table step; the result says whether the peer is new or strictly newer |
| `MirrorDht.MirrorDht.AddAspects` | crates/lib3h/src/dht/mirror_dht.rs:285-301 | the object stores the entry; the result says whether anything was new |
| `MirrorDht.MirrorDht.HandleRequestFromParent` | crates/lib3h/src/dht/mirror_dht.rs:354-577 | new state, published commands, answer and error of every request, including undecodable gossip, shallow entries and an owner that is gone; every known peer has a flag |
| `MirrorDht.MirrorDht.CollectTimedOut` | crates/lib3h/src/dht/mirror_dht.rs:140-166 | the loop finds each newly expired peer once and no other |
| `MirrorDht.MirrorDht.InternalProcess` | crates/lib3h/src/dht/mirror_dht.rs:135-190 | reports and flags exactly the newly expired peers, then gossips this peer when the interval has passed; the flag lookup cannot fail, since every method keeps the two key sets equal |
| `MirrorQueries.EntriesAreAnswered` | crates/lib3h/src/dht/mirror_dht.rs:458-497 | after any requests a node answers for an entry exactly the aspects its owner ever had it hold, and lists exactly the entries with some |
| `MirrorQueries.ThisPeerIsAnswered` | crates/lib3h/src/dht/mirror_dht.rs:502-532 | a node presents itself with the location last advertised and the timestamp it started with |
| `PeerTable.QueriesAnswerTheJoin` | crates/lib3h/src/dht/mirror_dht.rs:101-110 | the peer list is exactly the joins of what was received, a single peer is found with its join, and the node itself with its own record |
| `PeerTable.TableIsJoin` | crates/lib3h/src/dht/mirror_dht.rs:223-259 | after any calls the table lists exactly the names received, each with the greatest timestamp and the first location received |
| `PeerTable.OrderIrrelevant` | crates/lib3h/src/dht/mirror_dht.rs:223-259 | membership and timestamps are the same for every permutation of the calls |
| `PeerTable.OrderMattersForLocations` | crates/lib3h/src/dht/mirror_dht.rs:243-258 | locations are not: the first one stays |
| `PeerTable.LocationsAgreeExactlyWhen` | crates/lib3h/src/dht/mirror_dht.rs:223-259 | every permutation of the calls leaves the same locations, if and only if the calls about each name not known before carry one location |
| `PeerTable.AdvancesIffTableGrows` | crates/lib3h/src/dht/mirror_dht.rs:223-259 | the table never goes back, and `true` is returned exactly when it strictly advances |
| `PeerTable.After` | crates/lib3h/src/dht/mirror_dht.rs:135-172 | in every run the peer map and the flag map have the same keys, so the lookup cannot fail |
| `PeerTable.TimestampsNeverGoBack` | crates/lib3h/src/dht/mirror_dht.rs:223-259 | in every run timestamps grow, and a flag is cleared only by a newer one |
| `PeerTable.NoSecondReportWithoutNews` | crates/lib3h/src/dht/mirror_dht.rs:135-172 | between two timeout reports of one peer a strictly newer timestamp was recorded |
| `PeerTable.ReportedExactlyWhen` | crates/lib3h/src/dht/mirror_dht.rs:147-172 | a pass reports a peer exactly when it is another peer, unflagged, and over the threshold or stamped in the future; no older peer stays unflagged |
| `PeerTable.FlaggedPeersAreOld` | crates/lib3h/src/dht/mirror_dht.rs:135-172 | at all times flagged peers are at least as old as the threshold, if and only if no pass reports a peer stamped in the future and no flagged peer is refreshed from the future with its flag kept |
| `PeerTable.FutureStampTimesOutAtOnce` | crates/lib3h/src/dht/mirror_dht.rs:157-163 | a record stamped one tick ahead is reported by the very next pass |
| `PeerTable.FutureRefreshStaysFlagged` | crates/lib3h/src/dht/mirror_dht.rs:247-257 | a peer that rightly timed out and comes back stamped one tick ahead stays flagged |
| `GossipNetwork.StepSpreads` | crates/lib3h/src/dht/mirror_dht.rs:371-384 | a step keeps "what a node holds, each peer it knows holds, has coming, or has asked its owner for", unless it makes a peer known that lacks something the node holds by then |
| `GossipNetwork.EarlyIsTimely` | crates/lib3h/src/dht/mirror_dht.rs:410-450 | peers learned before the node holds anything are learned in time |
| `GossipNetwork.StepSourced` | crates/lib3h/src/dht/mirror_dht.rs:458-497 | every step keeps: whatever is held or in flight was broadcast by some owner |
| `GossipNetwork.DeliveryShrinks` | crates/lib3h/src/dht/mirror_dht.rs:469-496 | every delivery of gossip or of a hold request shrinks a measure, since gossip is sent only when a node's holdings grow |
| `GossipNetwork.FloodIsBounded` | crates/lib3h/src/dht/mirror_dht.rs:285-319 | from the last broadcast on at most that many deliveries can happen, whatever peer requests and passes come in between |
| `GossipNetwork.FloodSettles` | crates/lib3h/src/dht/mirror_dht.rs:285-319 | and the flood can always run until nothing is in flight |
| `GossipConvergence.RunKeepsInvariants` | crates/lib3h/src/dht/mirror_dht.rs:263-319 | every run keeps spreading, provenance, and that nothing published is forgotten by everyone |
| `GossipConvergence.SettledEdgesAgree` | crates/lib3h/src/dht/mirror_dht.rs:263-319 | once nothing is in flight, a peer holds whatever those who know it hold, or has asked its owner |
| `GossipConvergence.TimelyConvergence` | crates/lib3h/src/dht/mirror_dht.rs:371-497 | the same for peers learned later, as long as each has what the node holding it would not gossip again |
| `GossipConvergence.FixedIsTimely` | crates/lib3h/src/dht/mirror_dht.rs:410-454 | if after the first broadcast nodes are only told of peers they were told of before, every step is timely |
| `GossipConvergence.Convergence` | crates/lib3h/src/dht/mirror_dht.rs:371-497 | peer tables fixed before the first broadcast, strongly connected, an entry never broadcast as a shallow one: once quiet every node holds exactly the aspects of it that were ever broadcast, whatever happens to other entries |
| `GossipConvergence.LatePeerMissesEntry` | crates/lib3h/src/dht/mirror_dht.rs:410-450 | without timely learning it fails: a late peer gets nothing although nothing is left to deliver |
| `GossipConvergence.ShallowBroadcastStops` | crates/lib3h/src/dht/mirror_dht.rs:461-467 | with a shallow entry it fails: the receiver asks its owner and stores nothing |
| `GossipConvergence.ShallowStaysHome` | crates/lib3h/src/dht/mirror_dht.rs:458-497 | if an entry is only broadcast as a shallow one, in every run each node holds exactly what its own owner broadcast of it, whatever happens to other entries |
| `GossipConvergence.BroadcastReachesAll` | crates/lib3h/src/dht/mirror_dht.rs:458-497 | an entry broadcast once, among any broadcasts of others, over fixed, strongly connected tables reaches every node if and only if it is not shallow |
| `PeerNetwork.StepKeepsCovered` | crates/lib3h/src/dht/mirror_dht.rs:386-446 | no step, deliveries included, loses a peer record that a node knows or is about to hear of |
| `PeerNetwork.HoldingTellsAll` | crates/lib3h/src/dht/mirror_dht.rs:410-451 | a node that holds a new or newer peer stores it and tells all it knew before of it, and that peer of itself: in every continuation they know it with at least that timestamp or are about to hear |
| `PeerNetwork.PassTellsExactlyWhen` | crates/lib3h/src/dht/mirror_dht.rs:180-187 | a pass tells all known peers of this node exactly when the gossip interval has passed, in every continuation |
| `PeerNetwork.StepKeepsMeeting` | crates/lib3h/src/dht/mirror_dht.rs:386-446 | every step keeps: whoever a node knows hears of that node, and of any two peers of a node one hears of the other |
| `PeerNetwork.EveryoneMeets` | crates/lib3h/src/dht/mirror_dht.rs:386-446 | in every run from empty tables, once no peer traffic is in flight, nodes joined by any path of acquaintance know each other and list the same nodes |
| `PeerNetwork.DeliveriesSuffice` | crates/lib3h/src/dht/mirror_dht.rs:386-446 | after any run the deliveries still due suffice for that |
| `PeerNetwork.StepSpreadsExactlyWhen` | crates/lib3h/src/dht/mirror_dht.rs:398-446 | a step keeps "what a node holds of a peer, each peer it knows knows as new or is about to hear", if and only if everyone it does not tell has that already |
| `PeerNetwork.SettledTablesAgree` | crates/lib3h/src/dht/mirror_dht.rs:386-446 | in every run of timely steps, once quiet, neighbours hold the same peers, running or not, with the same timestamps |
| `PeerNetwork.RefreshStaysPut` | crates/lib3h/src/dht/mirror_dht.rs:398-403 | in every quiet network a refresh that comes by gossip leaves neighbours with different timestamps and nothing in flight |
| `PeerNetwork.HonestTablesAgree` | crates/lib3h/src/dht/mirror_dht.rs:386-446 | if owners hand in each node's own timestamp, tables agree once quiet on every node of the network, membership and timestamp, without any condition on timing |
| `PeerNetwork.LatePeerMissesOutsider` | crates/lib3h/src/dht/mirror_dht.rs:410-451 | a run after which neighbours disagree on a peer that is no node of the network |
| `PeerNetwork.DeliveryShrinks` | crates/lib3h/src/dht/mirror_dht.rs:410-420 | every delivery of peer traffic shrinks a measure |
| `PeerNetwork.FloodIsBounded` | crates/lib3h/src/dht/mirror_dht.rs:410-446 | so only that many deliveries can follow the last request |
| `PeerNetwork.FloodSettles` | crates/lib3h/src/dht/mirror_dht.rs:410-446 | and they can always go on until nothing is in flight |
| `GatewayActor.P2pGateway.PrivSendQueuePending` | crates/lib3h/src/gateway/gateway_transport_send.rs:77-86 | an expired send is told so, any other waits in the queue |
| `GatewayActor.P2pGateway.PrivSendWithPartialHighUri` | crates/lib3h/src/gateway/gateway_transport_send.rs:116-167 | the send moves into the closure of a DHT lookup |
| `GatewayActor.P2pGateway.PrivSendWithFullLowUri` | crates/lib3h/src/gateway/gateway_transport_send.rs:170-231 | the send moves into the closure of an encode request, or back to the queue while the encoder is detached |
| `GatewayActor.P2pGateway.SendWithPartialHighUri` | crates/lib3h/src/gateway/gateway_transport_send.rs:47-59 | a new unresolved send with its expiry |
| `GatewayActor.P2pGateway.SendWithFullLowUri` | crates/lib3h/src/gateway/gateway_transport_send.rs:62-74 | a new resolved send with its expiry |
| `GatewayActor.P2pGateway.PrivSendCheckDispatch` | crates/lib3h/src/gateway/gateway_transport_send.rs:89-113 | requeue within the retry interval, else send by kind of address |
| `GatewayActor.P2pGateway.ProcessTransportPendingSends` | crates/lib3h/src/gateway/gateway_transport_send.rs:28-44 | every drained send is dispatched, an error is reported only at the end, and no callback is lost |
| `GatewayActor.P2pGateway.RunSendClosure` | crates/lib3h/src/gateway/gateway_transport_send.rs:116-295 | what each answer, error or timeout does to a send in a closure; only a lookup that found the peer tells its send an address, the one found |
| `GatewayActor.P2pGateway.PrivOnReceive` | crates/lib3h/src/gateway/gateway_transport.rs:118-196 | what a decoded message triggers, a ping being answered by a new send |
| `GatewayActor.P2pGateway.HandleIncomingCallback` | crates/lib3h/src/gateway/gateway_transport.rs:19-86 | an incoming connection is announced upstream and answered with this peer's name |
| `GatewayActor.P2pGateway.SendAllPeersCallback` | crates/lib3h/src/gateway/gateway_actor.rs:119-161 | one new send for each listed peer, to that peer, with that payload, until one fails |
| `GatewayActor.P2pGateway.RunPlainClosure` | crates/lib3h/src/gateway/gateway_transport.rs:88-116 | what each answer does to a closure without a send |
| `GatewayActor.P2pGateway.HandleAnswer` | crates/zombie_actor/src/ghost_tracker.rs:157-174 | an unknown id is an error, a known one is removed and its closure runs |
| `GatewayActor.P2pGateway.DetachAndProcess` | crates/detach/src/lib.rs:126-184 | the member is out of its cell while its callbacks run and back afterwards, failed or not; the object is valid again |
| `GatewayActor.P2pGateway.HandleMessage` | crates/lib3h/src/gateway/gateway_dht.rs:15-136 | what each drained message of parent, transport and DHT triggers |
| `GatewayActor.P2pGateway.ProcessConcreteOnce` | crates/lib3h/src/gateway/gateway_actor.rs:24-73 | the nine phases in order, stopping at the first error; no detached member is used, every callback stays in exactly one place and on time, nothing remembered of a send is rewritten, and every send goes where it was told |
| `GatewayProofs.DispatchesAll` | crates/lib3h/src/gateway/gateway_transport_send.rs:28-44 | a drain loses no send, whatever errors its siblings report |
| `GatewayProofs.SendCallback` | crates/lib3h/src/gateway/gateway_transport_send.rs:116-295 | each closure of a send moves its callback to exactly one next place, on time, without touching a detached member |
| `GatewayProofs.PlainCallback` | crates/lib3h/src/gateway/gateway_transport.rs:88-196 | no other closure touches its own, detached, member either |
| `GatewayProofs.DetachRuns` | crates/detach/src/lib.rs:126-184 | a detached run keeps all of this and ends with every member attached |
| `GatewayProofs.EveryRunIsGood` | crates/lib3h/src/gateway/gateway_actor.rs:24-73 | so does every sequence of process calls, with any messages, answers, errors and delays |
| `GatewayProofs.NoDetachPanic` | crates/detach/src/lib.rs:162-184 | in no run is a detached member taken or dereferenced |
| `GatewayProofs.GuardIsNeeded` | crates/lib3h/src/gateway/gateway_transport_send.rs:181-196 | a run that receives one ping reaches a send while the encoder is detached: guarded it comes through, unguarded it would panic |
| `GatewayProofs.OneCallbackOnePlace` | crates/lib3h/src/gateway/gateway_transport_send.rs:77-113 | in every run each callback is in exactly one place (queue, a closure, or called once) with its original payload and expiry and the address it was told |
| `GatewayProofs.RetryBound` | crates/lib3h/src/gateway/gateway_transport_send.rs:14-23 | in every run a send is encoded at most 1002 times, at least 20 ms apart |
| `GatewayProofs.RetryBoundIsReached` | crates/lib3h/src/gateway/gateway_transport_send.rs:14-113 | some run does encode a send 1002 times |
| `GatewayProofs.ErrorsAreLateTimeouts` | crates/lib3h/src/gateway/gateway_transport_send.rs:77-86 | a callback hears an error only as a timeout, strictly after the expiry |
| `GatewayProofs.NeverUnresolved` | crates/lib3h/src/gateway/gateway_transport_send.rs:116-167 | a resolved send never waits for its address again, and calls made stay made |
| `GatewayAddresses.SendsGoWhereTold` | crates/lib3h/src/gateway/gateway_transport_send.rs:116-231 | in every run an unresolved send carries the address it was given, and every encoded, transmitted or resolved queued one exactly the address it was told, which for a full address is the given one |
| `GatewayAddresses.AnswerStartsExactly` | crates/lib3h/src/gateway/gateway_transport_send.rs:138-146 | an address found is told to the send that asked and to no other; which sends an answer starts, where to and with what |
| `GatewayAddresses.MessageStartsExactly` | crates/lib3h/src/gateway/gateway_dht.rs:71-93 | which sends a drained message starts, where to and with what; it tells none an address |
| `GatewayAddresses.MessageAsksExactly` | crates/lib3h/src/gateway/gateway_transport.rs:198-318 | which request a drained message leaves in a tracker, and that no callback hears more than a timeout from it |
| `GatewayAddresses.SendToAllStarts` | crates/lib3h/src/gateway/gateway_actor.rs:119-161 | a call that comes through has started one send per listed peer, to that peer, with that payload |
| `GatewayAddresses.AnswerSettles` | crates/lib3h/src/gateway/gateway_transport_send.rs:116-295 | found is encoded, encoded is transmitted, sent is success, anything else waits or, expired, is a timeout |
| `GatewayAddresses.SecondAnswerRefused` | crates/zombie_actor/src/ghost_tracker.rs:157-174 | a request is answered once, whatever its answer started; another answer is an error and changes nothing |
| `GatewayAddresses.SuccessMeansSent` | crates/lib3h/src/gateway/gateway_transport_send.rs:234-295 | in every run callbacks that heard of success are at most as many as the messages the transport said it sent |
| `GatewayLiveness.CallServes` | crates/lib3h/src/gateway/gateway_transport_send.rs:77-295 | a process call that comes through and answers what an expired send waits for brings it a step closer to its end, from wherever it is |
| `GatewayLiveness.ExpiredSendsEnd` | crates/lib3h/src/gateway/gateway_transport_send.rs:28-295 | in every run, once a send has expired it ends, its callback called, with the fourth such call, whatever other calls come between |
| `GatewayLiveness.ThreeAreNotEnough` | crates/lib3h/src/gateway/gateway_transport_send.rs:28-231 | some run serves an expired send, found at another address than it was started to, three times and has not called its callback |
| `GhostEndpoint.GhostContextEndpoint.PrivRequest` | crates/zombie_actor/src/ghost_channel.rs:392-418 | the callback is bookmarked with its deadline before the request is sent, and stays so if sending fails |
| `GhostEndpoint.GhostContextEndpoint.DrainMessages` | crates/zombie_actor/src/ghost_channel.rs:489-493 | hands over the outbox and empties it |
| `GhostEndpoint.GhostContextEndpoint.ProcessTracker` | crates/zombie_actor/src/ghost_tracker.rs:98-120 | exactly the expired ids are timed out, each once, up to the first failing callback |
| `GhostEndpoint.GhostContextEndpoint.Process` | crates/zombie_actor/src/ghost_channel.rs:496-543 | timeouts first, then the channel; on an error exactly the consumed prefix is gone and the rest is left in order; no callback is lost or doubled, every request taken is in the outbox, and after a call without an error nothing overdue waits; which callbacks ran and with what, and when it fails, is said by the messages and deadlines alone |
| `GhostAnswers.ProcessAnswers` | crates/zombie_actor/src/ghost_channel.rs:496-543 | one process call, by the messages and deadlines alone: which callbacks run and with which answer, what is left waiting, that it fails exactly when an overdue callback fails or a response is unknown, repeated or has a failing callback, and that it stops right behind the first such response |
| `GhostAnswers.AnswersAreHeard` | crates/zombie_actor/src/ghost_tracker.rs:157-174 | in every interleaving, once a request is answered and no response to it travels, its callback has run with exactly that answer, or earlier with a timeout |
| `GhostAnswers.RespondIsHeard` | crates/zombie_actor/src/ghost_channel.rs:131-151 | an answer given while the asker exists is, in every continuation, travelling, heard, or overtaken by a timeout |
| `GhostAnswers.GivenItsTime` | crates/zombie_actor/src/ghost_channel.rs:392-418 | in every continuation a callback hears of a timeout only after more than the time it was asked with |
| `GhostAnswers.EverythingOfferedArrives` | crates/zombie_actor/src/ghost_channel.rs:420-494 | in every run drained, outbox and travelling messages are, in order, all requests and events the other user made while this endpoint existed |
| `GhostChannelProofs.CountsStep` | crates/zombie_actor/src/ghost_channel.rs:131-151 | handles and callbacks are conserved by every step: asking makes a callback, and a handle exactly if the other endpoint exists; nothing copies or forges one, and an answer to an endpoint that is gone ends its handle |
| `GhostChannelProofs.RunKeeps` | crates/zombie_actor/src/ghost_channel.rs:392-543 | every interleaving, with either endpoint dropped at any step, keeps the channel invariant |
| `GhostChannelProofs.Correlation` | crates/zombie_actor/src/ghost_channel.rs:392-543 | each request has at most one callback run, an unresolved one is pending at exactly its asker, and a response carries exactly the answer given to that request |
| `GhostChannelProofs.UnsentOnlyTimesOut` | crates/zombie_actor/src/ghost_channel.rs:392-418 | a request made after the other endpoint is gone is not sent, and in every continuation its callback is still bookmarked or has heard a timeout, never an answer |
| `GhostChannelProofs.NoEarlyTimeout` | crates/zombie_actor/src/ghost_tracker.rs:98-120 | a timeout is never delivered before its deadline |
| `GhostChannelProofs.UnknownIdMeansTimedOut` | crates/zombie_actor/src/ghost_tracker.rs:157-174 | a response is refused with RequestIdNotFound exactly when its request was already timed out |
| `GhostChannelProofs.FifoConservation` | crates/zombie_actor/src/ghost_channel.rs:447-543 | at every point drained, outbox and travelling requests are, in order, exactly those whose sending succeeded |
| `GhostChannelProofs.ConsumedPrefix` | crates/zombie_actor/src/ghost_channel.rs:496-543 | the requests of the consumed prefix land in the outbox in order, and receiving stops early only after a failing response |
| `GhostChannelProofs.ProcessConserves` | crates/zombie_actor/src/ghost_channel.rs:496-543 | a process call keeps the number of callbacks of every id and everything it takes from the channel |
| `GhostChannelProofs.OverdueTimesOut` | crates/zombie_actor/src/ghost_tracker.rs:98-120 | a process call whose timeout callbacks succeed gives every overdue callback its timeout and leaves nothing overdue waiting |
| `GhostChannelProofs.ProcessIsARun` | crates/zombie_actor/src/ghost_channel.rs:496-543 | a process call is one of the runs the results are about |
| `DnsCodec.EncodeAfterDecode` | crates/mdns/src/dns/mod.rs:59-105 | whatever decodes is well formed, and encoding it gives back the bytes read |
| `DnsCodec.DecodeAfterEncode` | crates/mdns/src/dns/mod.rs:59-105 | decoding an encoded message followed by any bytes gives it back if and only if its counts and lengths are the real ones |
| `DnsCodec.NoPrefixDecodes` | crates/mdns/src/dns/mod.rs:59-84 | no strict prefix of an encoded message decodes |
| `DnsCodec.QuestionBack` | crates/mdns/src/dns/question.rs:37-62 | a question is read back from what was written |
| `DnsCodec.AnswerBack` | crates/mdns/src/dns/answer.rs:71-109 | so is an answer |
| `DnsCodec.TargetBack` | crates/mdns/src/dns/answer.rs:127-147 | so is its target |
| `WireLayout.EncodedExactlyWhen` | crates/mdns/src/dns/mod.rs:86-105 | the bytes of a message are exactly the packet with every number at its place, high byte first, every name behind its length, and nothing after it |
| `WireLayout.DecodedExactlyWhen` | crates/mdns/src/dns/mod.rs:59-84 | a packet decodes to a message if and only if it begins with that message so laid out and its counts and lengths are the real ones; the rest is what stands behind it |
| `WireLayout.PutAnswerAt` | crates/mdns/src/dns/answer.rs:72-104 | the layout of one answer, its ttl as four base-256 digits, high first |
| `DnsPackets.FromRaw` | crates/mdns/src/dns/mod.rs:59-84 | the cursor loops compute the decoding, with the same error; the packet begins with the message read, and is refused only if it begins with none |
| `DnsPackets.ToRaw` | crates/mdns/src/dns/mod.rs:86-105 | the buffer, written section by section and name by name one byte at a time, ends up as the encoding, laid out big endian |
| `MdnsRecords.SortSorts` | crates/mdns/src/record.rs:258-268 | sorting by network, url and ttl is a sorted permutation |
| `MdnsRecords.MergeIsRule` | crates/mdns/src/record.rs:52-86 | push, sort, dedup and drain agree, url by url, with the simple rule |
| `MdnsRecords.MergeSorted` | crates/mdns/src/record.rs:57-86 | a merged list is sorted, filed under its network, and invents nothing |
| `MdnsRecords.GroupsDetermine` | crates/mdns/src/record.rs:258-268 | a sorted list is determined by its urls' records, so the rule determines the merge |
| `MdnsRecords.UrlLostExactlyWhen` | crates/mdns/src/record.rs:66-84 | a url disappears exactly when two or more records meet without a release and the greatest ttl is not 255 |
| `MdnsRecords.KnownUrlKept` | crates/mdns/src/record.rs:66-84 | with incoming ttls 0 and 255 a known url stays, except exactly when its cached ttl is above 255 and no release comes |
| `MdnsRecords.MergeTwice` | crates/mdns/src/record.rs:52-86 | with incoming ttls 0 and 255 repeating the merge of a shared network's list changes nothing, exactly when no announcement meets a cached ttl above 255 |
| `MdnsRecords.LongTtlErases` | crates/mdns/src/record.rs:73-83 | a cached ttl of 300 makes the next announcement erase the url |
| `MdnsMessages.MergeLists` | crates/mdns/src/record.rs:53-86 | the push and drain loops compute the merge |
| `MdnsMessages.MapRecord.Update` | crates/mdns/src/record.rs:49-91 | every shared network is merged, new ones are taken over, the rest is untouched, in any order of iteration |
| `MdnsMessages.FromDnsMessage` | crates/mdns/src/record.rs:94-130 | the filter, sort, dedup and update loops compute the reading of a message |
| `MdnsMessages.ToDnsResponseMessage` | crates/mdns/src/record.rs:133-155 | the answers of all listed networks in order, or nothing |
| `MdnsAnnounce.ReadingGroups` | crates/mdns/src/record.rs:94-130 | a read message is its records grouped by network, sorted, each url of a network once |
| `MdnsAnnounce.ReadBack` | crates/mdns/src/record.rs:114-126 | one network's answers read back as its records sorted, exactly when no url is repeated |
| `MdnsAnnounce.AnnouncementArrives` | crates/mdns/src/record.rs:94-155 | end to end through the bytes: what is announced for a network arrives as the same records sorted, exactly when no url is repeated |
| `MdnsAnnounce.AnnouncementsArrive` | crates/mdns/src/record.rs:94-155 | the same for all networks in one packet: they arrive with each network sorted, exactly when no two neighbours of the whole sorted announcement share a url |
| `MdnsAnnounce.NothingDroppedExactlyWhen` | crates/mdns/src/record.rs:114-126 | a message is read as all its records, grouped by network and sorted, exactly when no two neighbours in sorted order have one url |
| `MdnsAnnounce.SharedUrlIsDropped` | crates/mdns/src/record.rs:114-115 | of two networks announcing one url in one packet the later is dropped |
| `MdnsNode.MulticastDns.UpdateTtl` | crates/mdns/src/lib.rs:267-276 | every live record of another node is one tick older |
| `MdnsNode.MulticastDns.PruneCache` | crates/mdns/src/lib.rs:258-264 | dead records are dropped, in every network |
| `MdnsNode.MulticastDns.Absorb` | crates/mdns/src/lib.rs:299-315 | the cache takes the news of own networks and no others |
| `MdnsNode.MulticastDns.Responder` | crates/mdns/src/lib.rs:290-362 | packets, cut to the receive buffer, are taken in order up to the first that cannot be decoded or answered |
| `MdnsNode.MulticastDns.Discover` | crates/mdns/src/lib.rs:428-442 | packets, then ageing and pruning, unless an error came first; the cache stays tidy, and after a success every cached url has one live record |
| `MdnsNode.MulticastDns.Release` | crates/mdns/src/lib.rs:445-463 | every own ttl becomes 0 and that is announced |
| `MdnsCacheProofs.UpdatedGroup` | crates/mdns/src/record.rs:49-91 | an update follows the simple rule for every network and url, known or not |
| `MdnsCacheProofs.UpdatedTwice` | crates/mdns/src/record.rs:49-91 | with incoming ttls 0 and 255 repeating an update changes nothing, if and only if no announcement for a shared network meets a cached ttl above 255 and the list of every new network is sorted and names no url twice, except as a release before an announcement |
| `MdnsCacheProofs.UnsortedChanges` | crates/mdns/src/record.rs:87-89 | two announcements of a new network, out of order, are stored as they are and swapped by the second update |
| `MdnsCacheProofs.PacketTwice` | crates/mdns/src/lib.rs:299-315 | absorbing a packet of announcements and releases again changes nothing, if and only if it announces no url cached with a ttl above 255 |
| `MdnsCacheProofs.StepGroup` | crates/mdns/src/lib.rs:290-442 | every call does to each url what the url's own small machine says, independent of all other urls |
| `MdnsCacheProofs.EveryRunIsTidy` | crates/mdns/src/lib.rs:292-347 | in every run from an empty cache, cached networks are own networks, records are filed right, and each url has at most one record or exactly a 0 and 255 pair |
| `MdnsCacheProofs.DiscoverSettles` | crates/mdns/src/lib.rs:428-442 | after every successful discover each url has at most one record, with time to live |
| `MdnsCacheProofs.ExactAgeing` | crates/mdns/src/lib.rs:258-276 | a foreign url not named again has t - k left after k successful discovers and is gone from the t-th on, whatever else happens |
| `MdnsCacheProofs.OwnUrlsDoNotAge` | crates/mdns/src/lib.rs:267-276 | own urls keep their ttl |
| `MdnsQueries.RepliedExactlyWith` | crates/mdns/src/lib.rs:320-345 | a message without answers is replied to with exactly the node's own records of the networks some INET CNAME question names, and any other not at all |
| `MdnsQueries.BuildQueryMessage` | crates/mdns/src/lib.rs:381-399 | the loops build one question per own record, or no query without networks |
| `MdnsQueries.QueryIsAnswered` | crates/mdns/src/lib.rs:279-399 | a query is answered by exactly the nodes that share a network, with exactly their records of the shared networks |
| `MdnsQueries.RefusedExactlyWhen` | crates/mdns/src/lib.rs:290-362 | a packet is refused if and only if it begins with no message, or it is a query this node has records for and the reply cannot be sent |
| `MdnsQueries.DiscoverSucceedsExactlyWhen` | crates/mdns/src/lib.rs:428-442 | a discover succeeds if and only if every packet is accepted and the query, if due, could be sent |
| `MdnsQueries.RecordOnTheWire` | crates/mdns/src/record.rs:234-255 | the packet of one record, byte position by byte position: counts, lengths, type 5, class 1, ttl |
| `MdnsNode.MulticastDns.ReceiveOne` | crates/mdns/src/lib.rs:292-347 | one packet: the reply sent for a query, the cache after a response |
| `MdnsNetwork.AcceptedExactlyWhen` | crates/mdns/src/lib.rs:228-295 | the packet announcing all own networks is accepted exactly when it fits the 4096-byte receive buffer |
| `MdnsNetwork.AnnouncementHeard` | crates/mdns/src/lib.rs:292-416 | if it fits, a node hears of each url of its networks exactly what the announcing node has |
| `MdnsNetwork.DiscoveryWorks` | crates/mdns/src/lib.rs:402-442 | whatever is cached of it, an announced url is known after the next discover as if for the first time, except exactly when the packet does not fit (the call fails, nothing changes) or a cached ttl above 255 meets a single copy (the url is erased) |
| `MdnsNetwork.LearnedExactlyWhen` | crates/mdns/src/lib.rs:402-442 | an unknown url becomes known exactly when its announcement fits |
| `MdnsNetwork.OversizedIsLost` | crates/mdns/src/lib.rs:228-241 | a node whose url is longer than the buffer is never discovered, and its announcement makes the reader's discover fail without ageing |
| `MdnsNetwork.ReleaseHeard` | crates/mdns/src/lib.rs:445-463 | a release that fits says ttl 0 for each of the node's urls |
| `MdnsCacheProofs.ReleaseForgets` | crates/mdns/src/lib.rs:428-463 | whatever is cached of it, a released url is gone after the next discover exactly when it was not cached with ttl 255, however often the release is repeated |
| `MdnsNetwork.QuickLeaveIsMissed` | crates/mdns/src/lib.rs:402-463 | with packets that fit, announcing and releasing within one discover of a peer leaves the url in its cache, however often each is sent, unless a cached ttl above 255 met a single announcement; with a discover in between it is gone |
| `Legacy.Tracker.Set` | crates/lib3h/src/track.rs:66-75 | replaces the value and keeps the deadline, or starts tracking; returns what was there |
| `Legacy.Tracker.Remove` | crates/lib3h/src/track.rs:78-83 | forgets the id and returns its value |
| `Legacy.Tracker.ProcessTimeouts` | crates/lib3h/src/track.rs:86-108 | removes exactly the ids whose time is up and returns each once with its value |
| `Legacy.LegacyLib3h.InjectRequestId` | crates/lib3h/src/engine/ghost_engine_wrapper.rs:312-336 | the client sees kind and body as they came, and the tracked id unless the kind keeps its own; a direct message's own id is remembered |
| `Legacy.LegacyLib3h.Process` | crates/lib3h/src/engine/ghost_engine_wrapper.rs:277-302 | every drained message is handed on in order, its kind and body unchanged; in every continuation the first answer posted under the id the client was shown goes to that message's handle, for a direct message with its original id; no remembered id loses its message |
| `Legacy.LegacyLib3h.PostAnswer` | crates/lib3h/src/engine/ghost_engine_wrapper.rs:238-272 | what an answer sends, forgets and reports, for known and unknown ids and for what does not convert; only a mismatched answer leaves a remembered id without its message |
| `Legacy.LiveIdsExactlyWhen` | crates/lib3h/src/engine/ghost_engine_wrapper.rs:251-267 | in every run each remembered id has a live tracked message, if and only if no waiting direct message was answered with another kind of result |
| `Legacy.AnsweredOnce` | crates/lib3h/src/engine/ghost_engine_wrapper.rs:239-271 | in every run the first answer goes to its message's handle, with the original request id for a direct message; every later one is refused and changes nothing |
| `Legacy.MismatchLeaks` | crates/lib3h/src/engine/ghost_engine_wrapper.rs:251-267 | in every state a mismatched answer leaves its remembered id behind: no continuation forgets it or can answer it |
| `Legacy.MismatchHappens` | crates/lib3h/src/engine/ghost_engine_wrapper.rs:251-267 | a delivered direct message answered with a fetch result is such a case |

## Left out

- Serialization by serde_json, rmp_serde, base64 and Cap'n Proto: gossip bundles and peer-to-peer messages are values, with a case for those that do not decode.
- Sockets, UDP, websocket, TLS and the in-memory transport; a packet is the bytes that were sent, and an empty datagram ends a batch, so it is none of its packets. Whether a reply or query could be sent is a parameter.
- crates/sodium and crates/crypto_api: foreign calls; rrdht.rs and keystore.rs: stubs.
- GhostEngine, the network layer and most of the space layer: forwarding; that owners accept every hold request is taken from there. An owner's later answer to a request for a shallow entry's content would be one more broadcast.
- `GossipNetwork` lets any node receive any peer request at any time, which covers all deliveries of peer gossip and more; peer gossip in flight is `PeerNetwork`. Both take every gossip to be delivered.
- PeerNetwork.SettledTablesAgree: for whole runs one direction of the condition only; tables may still come to agree after a step that was not timely, if a later one tells what it left untold.
- An error in `handle_request_from_parent` makes the actor's process call panic (mirror_dht.rs:340-341); runs of the model go on after it, so they cover more than the code does.
- GatewayActor: closures are modelled by the data they capture, and the four `Detach` cells by the set of members attached; `this_peer` itself is not stored. An address found is the peer's location with its agent id already set; that the transport is given it without the agent id (gateway_transport_send.rs:266-269) is not shown. Panics on unexpected input in the handlers are outcomes of a run, not excluded from it.
- GossipConvergence.TimelyConvergence: for whole runs one direction of the condition only; a network may still converge after a peer was learned late, if another route reaches it.
- MdnsAnnounce.AnnouncementsArrive: with counts and lengths below 65536; beyond that the 16-bit fields wrap and the packet means something else.
- GatewayLiveness.ExpiredSendsEnd: a call that comes back with an error is not counted among the four, though it may come between them.
- GatewayActor.P2pGateway.PrivSendQueuePending: a send that came in as a published event, not as a request, has a callback that panics when told of a timeout (ghost_channel.rs:131-151, gateway_transport.rs:230-246); the model takes every send to come from a request, so it has no such outcome.
- GhostChannelProofs: that `process` reports a closed channel is in `GhostEndpoint`; as it changes no state, it is no step. What a dropped endpoint still had pending is kept as it was and never called.
- `insert_record`, `insert_own_record` and the builder: direct writes to the maps that can break any invariant.
- Legacy: what is no result and has no case at all panics (ghost_engine_wrapper.rs:222) where the model reports it as not converted; client requests that go down through the engine touch neither map; nothing in the wrapper calls the tracker's timeouts, so unanswered ids stay.
- Error texts, backtraces, tracing spans, log output.
