# Mini-node relay and rendezvous engine: a Dafny model

The mini-node is one process whose librats io thread, 1 s sweeper, 30 s reaper, sender thread and probe
threads step over shared tables. These modules model each table with the atomic steps the code takes on it,
state what every run guarantees, and prove it. `dafny verify dfyconfig.toml` checks the whole project.

Each component has two layers. A state, an event type and a total `Next` describe one atomic step;
`Run` folds it over any event sequence, so a lemma about `Run` speaks of every interleaving. Beside it a class
holds the source's own fields and updates them in place; each of its methods is proved to be that step. Loops
over hash maps pick their keys with `:|`, so they are proved for every iteration order. Reference definitions
that the properties are stated against are computed from the events alone (bytes forwarded, senders seen, last
forward of a body, broadcasts about a peer), not from the tables.

| file | component |
|---|---|
| PendingRelays, RelayEngine | the relay.forward / reply / sweep / disconnect protocol and its handlers |
| TokenBucket | the per-sender rate limit of the binary relay |
| DeliveryLedger, TopSender | per-delivery accounting, reaper flush, co-sign memory, seeder choice |
| RouteTable | route admission, replay guard, eviction |
| GossipDedup, FanoutSample, MeshFlood | sparse-mesh flooding over any number of nodes |
| MiniHello | the mini.hello handshake and full-mesh replication over the same ordered links |
| SendQueue, PlayerPresence | the off-io queue and the online/offline events pushed through it |
| ProbeSlots | the reachability-probe cap |
| SignedPreimages | chat, relay.report and route preimages |
| AlbumKey, ArtScraper | key normalisation; the scraper's negative cache beside contributed covers |
| Bytes, MapSum, Options | codecs, sums over maps, the optional value |

## Where the code differs from what is said about it

- A relay.forward can be answered twice: a send that fails after the sweeper took its entry adds dead_route to
  relay_timeout. Exactly then (`SecondAnswerIffSwept`), and only if the send took longer than the TTL.
- "One relayed stream co-signs exactly ONE play" fails for a stream that outlives its row (`LongStreamSignsTwice`).
  A second session is signed exactly when it is corroborated, its digest is right, and it was the first to ask
  since the row was last erased (`SecondSessionIff`, from `CosignedIff`). A request refused for its digest claims
  the delivery all the same and shuts every other session out (`BoundRowRefuses`).
- The replay guard protects an entry only while that entry is signed (`StepLowersTsIff`, `LenientModeReplays`).
- Gossip dedup reads the wall clock: a backward step forwards a body again (`BackwardStepForwardsTwice`), and the
  8192 "cap" is soft: it is exceeded exactly when more bodies than that were forwarded within one window
  (`CapExceededIff`).
- A peer that announced itself as a player and also sent mini.hello is never removed from the player table by its
  disconnect (`StaleAfterDisconnectIff`).
- `sender_loop` drains its queue at shutdown except when something was enqueued and the stop came before its first
  test (`ExitLeavesWorkIff`).
- "from_mininode breaks A-B-A-B loops": a replica goes on exactly when it left before its sender's first hello over
  the link (`ForwardedAgainIff`), which for a registered peer is the gap between registration and echo in the
  mini.hello handler (`EarlyOnlyInGap`, `GapForwardsAgain`). In every other run replication stays one hop
  (`NoReplicaGoesOn`).
- A flushed first burst below the minimum hides everything a delivery relays afterwards until its next flush, so an
  honest listener is refused meanwhile (`CorroboratedIff`, `SmallBurstShadows`, `PausedStreamIsRefused`).
- "First writer wins" for covers, and a tombstone only for albums without one: both fail exactly for a write that
  crosses another writer's check (`OverwritesIff`, `CoexistIff`).
- An artist name with a 0x1F in it can share its art or lyrics key with another artist, exactly as
  `OtherArtistSharesAlbumKeyIff` and `OtherArtistSharesLyricsKeyIff` say.
- A chat message shares its bytes with the same signer's message to another room, or a moderation action with another
  room and target, exactly as `SameSignerAmbiguousIff` and `KnownActionAmbiguousIff` say.

## Model

| member | source | states |
|---|---|---|
| PendingRelays.MintedIdsDistinct | bopwire/tools/mini_node.cpp:124-139 | The first 2^64 ids minted by one process are pairwise distinct, whatever the random seed of the counter |
| PendingRelays.RelayIdIs | bopwire/tools/mini_node.cpp:124-139 | An id is "relay-" and the sixteen lowercase hex digits of the counter |
| PendingRelays.ForwardIsTaken | bopwire/tools/mini_node.cpp:2616-2664 | In every reachable state a request with a target and a verb is recorded under a fresh id and sent, whatever else is pending; any other changes nothing |
| PendingRelays.SendReturns | bopwire/tools/mini_node.cpp:2665-2704 | The io thread comes back from every send, and only a failed one takes its entry out |
| PendingRelays.RunKeepsInv | bopwire/tools/mini_node.cpp:2624-2706 | Over every interleaving of forwards, send results, replies, sweeps and disconnects, each accepted forward has exactly the answers its fate allows and the times of table, sweeper and clock stay consistent |
| PendingRelays.Conservation | bopwire/tools/mini_node.cpp:2624-2706 | Requests that reached the idle io thread with a target and a verb = pending + replied + dead_route + timed out + purged by disconnect, in every reachable state |
| PendingRelays.AnswersMatchTheirForward | bopwire/tools/mini_node.cpp:2624-2706 | Whatever is ever answered for the forward at position i of the history goes to the peer that sent it, under its own req_id; a relayed body comes from the target it named; at most one answer unless its failed send lost the race with the sweeper |
| PendingRelays.AnsweredOnceToOriginator | bopwire/tools/mini_node.cpp:3037-3073 | The same per minted id, with the exact pair of answers in the one case of two |
| PendingRelays.ExitsHaveOneCause | bopwire/tools/mini_node.cpp:1231-1242 | An entry leaves only by its target's reply, by the failed send of this very forward, by a sweep that finds it stale, or by the disconnect of its own originator, and by nothing another peer does |
| PendingRelays.OnlyTargetClaims | bopwire/tools/mini_node.cpp:2966-3062 | A reply from anyone but the recorded target changes nothing; the target's reply always claims the entry, since the chatmods- and wlt- branches cannot shadow a minted id |
| PendingRelays.SecondAnswerIffSwept | bopwire/tools/mini_node.cpp:2665-2704 | A failed send gives the originator a second answer if and only if the sweeper took the entry first |
| PendingRelays.PromptSendNeverRaces | bopwire/tools/mini_node.cpp:2665-2679 | That cannot happen when the send returns within 9000 ms of the insert |
| PendingRelays.SlowFailedSendAnswersTwice | bopwire/tools/mini_node.cpp:2665-2704 | It does happen for every forward whose send blocks longer: relay_timeout and then dead_route |
| PendingRelays.SweepClears | bopwire/tools/mini_node.cpp:3534-3557 | An undisturbed sweeper pass leaves exactly the entries of the last 9000 ms and has answered every other entry that has an originator |
| PendingRelays.NoEntryOutlives | bopwire/tools/mini_node.cpp:3525-3548 | While sweep readings are at most G ms old no entry is older than 9000 + G ms |
| PendingRelays.AnsweredInTime | bopwire/tools/mini_node.cpp:3525-3557 | Past that age every forward whose originator is known and still connected has been answered, and none is timed out before 9000 ms |
| RelayEngine.RelayEngine.NewRelayReqId | bopwire/tools/mini_node.cpp:124-139 | The in-place counter step is the protocol's mint step |
| RelayEngine.RelayEngine.Forward | bopwire/tools/mini_node.cpp:2604-2664 | The handler up to the send is the protocol's forward step, invalid requests included |
| RelayEngine.RelayEngine.SendDone | bopwire/tools/mini_node.cpp:2665-2706 | Erase and dead_route on a failed send are the protocol's send-result step |
| RelayEngine.RelayEngine.OnRelayReply | bopwire/tools/mini_node.cpp:2972-3073 | The reply handler is the protocol's reply step and sends exactly the one relayed answer it owes |
| RelayEngine.RelayEngine.OnDisconnect | bopwire/tools/mini_node.cpp:1231-1242 | The erase-while-iterating purge, in any iteration order, is the protocol's disconnect step |
| RelayEngine.RelayEngine.CollectStale | bopwire/tools/mini_node.cpp:3536-3548 | The locked loop erases exactly the stale entries and returns each of them exactly once, in any iteration order |
| RelayEngine.RelayEngine.SweepRun | bopwire/tools/mini_node.cpp:3534-3557 | One pass is the protocol's sweep step; each timeout goes out exactly as many times as there are stale entries that owe it, so once per entry, and not at all when the originator has no peer id |
| TokenBucket.RateBound | bopwire/tools/mini_node.cpp:3202-3229 | In any window [a,b] a sender is charged at most 52428800 bytes for its bucket, the same again for each time the reaper dropped the bucket in the window, plus 10485 per ms; wrap-around included |
| TokenBucket.LazyRefinesEager | bopwire/tools/mini_node.cpp:3212-3228 | On any frame sequence the lazy bucket takes the same decisions as a bucket refilled and capped every millisecond |
| TokenBucket.SteadyClockNeverWraps | bopwire/tools/mini_node.cpp:3213-3219 | No 64-bit operation wraps on the steady clock, however long a sender was silent |
| TokenBucket.RefusalInvisible | bopwire/tools/mini_node.cpp:3224-3228 | A refused frame never changes a later decision |
| TokenBucket.AdmittedAfterWait | bopwire/tools/mini_node.cpp:3213-3228 | A payload is admitted exactly from its computed wait on, and never if it exceeds the bucket |
| TokenBucket.RelayBuckets.Admit | bopwire/tools/mini_node.cpp:3202-3229 | The in-place table step decides and charges as the model does and touches no other sender |
| TokenBucket.RelayBuckets.Prune | bopwire/tools/mini_node.cpp:3448-3458 | After the reaper exactly the connected senders keep their buckets, unchanged |
| DeliveryLedger.FrameIsAccounted | bopwire/tools/mini_node.cpp:3270-3291 | Every forwarded frame whose sixteen id bytes are not all zero enters the accounts of its own delivery, bytes, time and sender, and of no other; only the all-zero id is left out |
| DeliveryLedger.DeliveryConservation | bopwire/tools/mini_node.cpp:3270-3291 | Live bytes plus reported bytes never exceed the payload forwarded for the delivery id, and equal it until 2^64 bytes |
| DeliveryLedger.SenderAttribution | bopwire/tools/mini_node.cpp:3285-3289 | Per-sender bytes never exceed the accumulator's total and sum to it while at most 32 senders appeared since its last flush |
| DeliveryLedger.CreditIsExact | bopwire/tools/mini_node.cpp:3285-3289 | A sender that holds one of the 32 slots is credited with exactly the bytes it pushed since the last flush |
| DeliveryLedger.FlushedIffIdle | bopwire/tools/mini_node.cpp:3472-3485 | A live delivery is flushed by a reaper pass if and only if its last forwarded frame is more than 5000 ms old |
| DeliveryLedger.DistinctKeys | bopwire/tools/mini_node.cpp:3274-3281 | The hex key keeps distinct delivery ids apart |
| DeliveryLedger.SignatureNeedsRelayedBytes | bopwire/tools/mini_node.cpp:2479-2492 | Every signature is preceded by at least 65536 bytes successfully forwarded on that very delivery id |
| DeliveryLedger.SignatureNamesRelayedDelivery | bopwire/tools/mini_node.cpp:2477-2492 | A signed request names the key of a delivery some earlier frame carried |
| DeliveryLedger.SignatureIsFresh | bopwire/tools/mini_node.cpp:263-267 | A delivery id is no standing signing capability: with reaper passes at most G ms apart every signature rests on 65536 bytes of one accumulator lifetime that was live within the last 900000 + G ms, and on a frame of that delivery within the last 905000 + 2G ms; only evidence from clock reading 0 lasts one memory longer, since a row stamped 0 is stamped again |
| DeliveryLedger.CosignedIff | bopwire/tools/mini_node.cpp:2477-2512 | In every reachable state a request is signed if and only if it is corroborated, its digest is right, and the delivery is unowned or owned by its session, where the owner is told by the events alone |
| DeliveryLedger.RowIsRemembered | bopwire/tools/mini_node.cpp:2479-2495 | What a row holds and when it was stamped, told by frames, requests, reaper passes and clock readings alone |
| DeliveryLedger.CorroboratedIff | bopwire/tools/mini_node.cpp:2477-2492 | A request is corroborated if and only if it is well formed and the bytes on record are enough, where a row, however small, hides what the delivery has relayed since |
| DeliveryLedger.SmallBurstShadows | bopwire/tools/mini_node.cpp:2481-2492 | A flushed first burst below 65536 bytes shuts the delivery out until its next flush or the erasure of its row, however much is relayed |
| DeliveryLedger.PausedStreamIsRefused | bopwire/tools/mini_node.cpp:2481-2492 | One byte, a pause and the whole stream: its listener is refused while it runs and signed once it was flushed |
| DeliveryLedger.BindingHolds | bopwire/tools/mini_node.cpp:2493-2502 | Once a corroborated request has come in the delivery keeps its owner through every later step, flushes included, until the row is erased |
| DeliveryLedger.OneSessionPerRow | bopwire/tools/mini_node.cpp:2493-2502 | Two signatures for one delivery name the same session unless the row was erased between them |
| DeliveryLedger.SecondSessionIff | bopwire/tools/mini_node.cpp:2496-2501 | After a signature for one session a request for another is signed if and only if it is corroborated, its digest is right, the row was erased since, and nobody else was first to ask after the last erasure |
| DeliveryLedger.BoundRowRefuses | bopwire/tools/mini_node.cpp:2496-2502 | While the row stands exactly the owner can be signed; the owner may be a session that was itself refused for its digest |
| DeliveryLedger.ErasureSignsAnew | bopwire/tools/mini_node.cpp:3466-3471 | When a row is erased while enough bytes of its stream are still on record, the delivery can be signed at once for any session |
| DeliveryLedger.RowSurvives | bopwire/tools/mini_node.cpp:3466-3471 | A row outlives its stamp by at least 900000 ms |
| DeliveryLedger.StampOfStep | bopwire/tools/mini_node.cpp:2493-2495 | The stamp is the time of the corroborated request that created the row, signed or not, or of the latest flush |
| DeliveryLedger.LongStreamSignsTwice | bopwire/tools/mini_node.cpp:2477-2503 | One uninterrupted stream that outlives its row is signed for two sessions: the comment at lines 2496-2497 promises more than the code keeps |
| DeliveryLedger.Ledger.OnForwarded | bopwire/tools/mini_node.cpp:3266-3291 | The in-place accounting is the model's frame step, 64-bit wrap and sender cap included |
| DeliveryLedger.Ledger.KeyOf | bopwire/tools/mini_node.cpp:3274-3279 | The nibble loop yields the two-digit lowercase hex of every byte in order |
| DeliveryLedger.Ledger.CosignRequest | bopwire/tools/mini_node.cpp:2477-2512 | The in-place checks, including the effects of refused requests, are the model's cosign step |
| DeliveryLedger.Ledger.ReapDeliveries | bopwire/tools/mini_node.cpp:3462-3486 | The two loops in any iteration order are the model's reap step and return exactly the flushed accumulators |
| TopSender.LessAtFirstDifference | bopwire/tools/mini_node.cpp:241-243 | Ties are decided at the first differing character, the smaller first, a prefix before its extensions |
| TopSender.TopIsUnique | bopwire/tools/mini_node.cpp:239-245 | At most one pair is the top sender of a set of counts |
| TopSender.Pick | bopwire/tools/mini_node.cpp:239-245 | For every iteration order: most bytes, ties to the lexicographically smallest peer id, and ("", 0) when nobody sent a byte |
| RouteTable.WindowIsExact | bopwire/tools/mini_node.cpp:1073-1081 | The 64-bit window test accepts exactly now-1800 <= ts <= now+300 although its first sum may wrap |
| RouteTable.SignedAdmittedIff | bopwire/tools/mini_node.cpp:977-1105 | A signed route is admitted if and only if it verifies for its own node id, names one, is on the chain, in the window and not older than a signed entry already held |
| RouteTable.PlainAdmittedIff | bopwire/tools/mini_node.cpp:977-1105 | An unsigned route is admitted if and only if enforcement is off, it names a node, is on the chain and no newer signed entry is held; no window, no signature |
| RouteTable.EntriesAreGenuine | bopwire/tools/mini_node.cpp:507-527 | In every reachable state each signed entry was verified for exactly the node id it is filed under; with enforcement on every entry is signed |
| RouteTable.StepLowersTsIff | bopwire/tools/mini_node.cpp:1089-1104 | A listed node's timestamp drops if and only if an admissible older route meets an unsigned entry |
| RouteTable.TsMonotone | bopwire/tools/mini_node.cpp:1089-1104 | While a node stays listed and signed its timestamp never decreases, over any run |
| RouteTable.TsMonotoneWhenEnforcing | bopwire/tools/mini_node.cpp:1089-1104 | With signed routes required that holds for every node as long as it is listed |
| RouteTable.LenientModeReplays | bopwire/tools/mini_node.cpp:1089-1104 | Without enforcement one unsigned route lets an older genuine envelope replace a newer one that had just refused it |
| RouteTable.EntryIsTheArrival | bopwire/tools/mini_node.cpp:1015-1038 | What is stored is the arrival: its node, the peer it names or else came from, its timestamp, the clock when it came, and its envelope |
| RouteTable.RouteLeavesIff | bopwire/tools/mini_node.cpp:2683-2697 | A node leaves the table if and only if a send fails to the peer of the route that listed it or a reaper pass comes more than 600000 ms after that route arrived |
| RouteTable.ListedIff | bopwire/tools/mini_node.cpp:1089-1104 | The table told by the events: a node is listed with an entry if and only if exactly that entry was admitted from a route that arrived and since then no other route for it was admitted, no send to its peer failed, and no reaper pass came more than 600000 ms after the arrival |
| RouteTable.EnvelopeArrived | bopwire/tools/mini_node.cpp:977-1105 | The envelope of a signed entry arrived in an earlier event and verified for exactly the node it is filed under |
| RouteTable.Routes.IngestRoute | bopwire/tools/mini_node.cpp:977-1105 | The in-place handler returns the model's verdict and leaves the model's table |
| RouteTable.Routes.EvictTarget | bopwire/tools/mini_node.cpp:2680-2698 | The eviction loop, in any order, removes exactly the dead target's routes |
| RouteTable.Routes.ReapRoutes | bopwire/tools/mini_node.cpp:3407-3424 | The reaper loop, in any order, removes exactly the expired routes |
| GossipDedup.DecidesFromHistory | bopwire/tools/mini_node.cpp:933-949 | On a non-decreasing clock each decision is the one the complete, unpruned history would give |
| GossipDedup.ForwardsPerWindow | bopwire/tools/mini_node.cpp:933-949 | A node forwards one body at most 1 + T/300000 times in T ms |
| GossipDedup.SuppressedIff | bopwire/tools/mini_node.cpp:938-939 | On any clock a repeat is suppressed if and only if its time lies in the window that starts at the recorded one |
| GossipDedup.BackwardStepForwardsTwice | bopwire/tools/mini_node.cpp:933-939 | After any backward step of the wall clock the same body is forwarded again at once |
| GossipDedup.CapExceededIff | bopwire/tools/mini_node.cpp:940-947 | On a non-decreasing clock a forward leaves more than 8193 entries if and only if more than 8192 bodies were forwarded within the window before it |
| GossipDedup.SeenSize | bopwire/tools/mini_node.cpp:940-947 | A call leaves at most one entry more than the larger of the cap and the bodies still in the window |
| GossipDedup.CapIsSoft | bopwire/tools/mini_node.cpp:940-947 | n distinct bodies in one window are all kept, for every n |
| GossipDedup.GossipSeen.ShouldForward | bopwire/tools/mini_node.cpp:933-949 | The in-place map with its pruning loop is the model's call |
| FanoutSample.SampleIsArrangement | bopwire/tools/mini_node.cpp:918-927 | Every draw from a duplicate-free list is a duplicate-free choice of k of its elements |
| FanoutSample.EveryArrangementIsDrawn | bopwire/tools/mini_node.cpp:918-927 | Every ordered k-sample arises from a draw |
| FanoutSample.DrawsAreDistinguished | bopwire/tools/mini_node.cpp:918-927 | Different draws give different ordered samples, so equally likely draws give equally likely samples |
| FanoutSample.SampleIsSubMultiset | bopwire/tools/mini_node.cpp:918-927 | For any list, duplicates included, the sample is a sub-multiset |
| FanoutSample.FitsOrIsCut | bopwire/tools/mini_node.cpp:918-927 | A list that fits comes back whole, otherwise exactly k elements do, a sub-multiset either way |
| FanoutSample.FanoutBoundIff | bopwire/tools/mini_node.cpp:918-919 | The result has at most k elements if and only if k > 0 or the list is empty; the clamps at lines 3985-3986 keep every caller on the bounded side |
| FanoutSample.SampleInPlace | bopwire/tools/mini_node.cpp:918-927 | The in-place swap loop computes that sample |
| MeshFlood.SampledTargetsReach | bopwire/tools/mini_node.cpp:1405-1426 | The sampler's result is always a legal set of targets: known peers, not the source, at most the fan-out |
| MeshFlood.HearingQueuesIff | bopwire/tools/mini_node.cpp:1126-1134 | A publication or genuine replica queues exactly one replication, naming its source, if and only if the node never forwarded the body or last did so 300000 ms ago or more |
| MeshFlood.QueuedIsForwarded | bopwire/tools/mini_node.cpp:933-949 | Without a hash collision a node queues exactly the replications its dedup lets through, over every run |
| MeshFlood.FloodReachesAll | bopwire/tools/mini_node.cpp:1118-1134 | In a run that loses nothing and samples every peer, once no task and no message is left every node connected to a publisher has forwarded the body |
| MeshFlood.FloodCompletes | bopwire/tools/mini_node.cpp:1118-1134 | From every state reached without losses the flood can run to that end while the fan-out covers the peers |
| MeshFlood.FloodTerminates | bopwire/tools/mini_node.cpp:1118-1134 | For any topology, samples, losses and queue drops, T ms of flooding cost at most nodes x (1 + T/300000) replications, fan-out times that in sends, and boundedly many steps in all |
| MeshFlood.OneWindowFlood | bopwire/tools/mini_node.cpp:1118-1134 | Within one window each node replicates a body at most once and sends total at most nodes x fan-out |
| MeshFlood.LossesAreModelled | bopwire/tools/mini_node.cpp:1287-1296 | Any message in flight may be lost and any queued task dropped, and nothing else changes then |
| MiniHello.RegistrationIsAnswered | bopwire/tools/mini_node.cpp:1898-1921 | In every reachable state, B registered at A implies A registered at B, or A's hello to B on its way or about to be sent, or A has yet to hear that the link is gone |
| MiniHello.QuiescentIsSymmetric | bopwire/tools/mini_node.cpp:1898-1921 | With no hello on a link or owed and no disconnect unnoticed, registration is symmetric and is exactly what was greeted from either end |
| MiniHello.HelloIsHeard | bopwire/tools/mini_node.cpp:1898-1921 | The first hello over a link registers its sender, owes it an echo and queues exactly one table snapshot for it; a later one changes no registration |
| MiniHello.SnapshotGoesToNewcomer | bopwire/tools/mini_node.cpp:1372-1395 | The snapshot task sends one message per route to the newcomer and none elsewhere |
| MiniHello.DownThenForgotten | bopwire/tools/mini_node.cpp:1188-1202 | A lost link takes its messages with it, and an end forgets the other by its own notice |
| MiniHello.HandshakeSettles | bopwire/tools/mini_node.cpp:1898-1921 | From every reachable state, without further greetings, deliveries, echoes and notices can reach quiet, and then both ends of every greeted link that is up have registered each other |
| MiniHello.EchoTerminates | bopwire/tools/mini_node.cpp:1908-1921 | From any reachable state the exchange left to itself ends, within a number of steps given by the hellos under way, the echoes owed and the pairs not yet registered |
| MiniHello.OneReplicaEach | bopwire/tools/mini_node.cpp:1405-1426 | From any reachable full mesh at rest a route published by a full node reaches every other mini-node exactly once, whatever the order of threads and links and however often the nodes greet each other meanwhile, and no replica is forwarded again |
| MiniHello.GreetedMeshIsFullyRegistered | bopwire/tools/mini_node.cpp:1338-1367 | The handshake brings that mesh about once every pair has been greeted from one end |
| MiniHello.ForwardedAgainIff | bopwire/tools/mini_node.cpp:1118-1134 | Over every run, disconnects included: an admitted replica queues exactly one further fan-out if and only if it left before its sender's first hello over that link and, for a frame of the slow lane, no such hello has overtaken it; otherwise it queues none |
| MiniHello.HelloPassesBulkOnly | bopwire/tools/mini_node.cpp:1898-1921 | A hello may overtake a frame above 16 KiB and none of its own lane |
| MiniHello.NoReplicaGoesOn | bopwire/tools/mini_node.cpp:1126-1134 | In a run in which no route leaves before such a hello no replica is ever forwarded again, however registrations change under way |
| MiniHello.EarlyOnlyInGap | bopwire/tools/mini_node.cpp:1895-1921 | A route to a peer still registered leaves that early only between the registration and the echo of the mini.hello handler |
| MiniHello.GapForwardsAgain | bopwire/tools/mini_node.cpp:1901-1920 | The gap is real: a route that the sender thread gets out inside it is forwarded again, for any two nodes |
| MiniHello.MeshNode.OnMiniHello | bopwire/tools/mini_node.cpp:1898-1921 | The in-place insert is this node's share of a delivery in any network state, and an echo is owed exactly when the protocol owes one |
| MiniHello.MeshNode.OnPeerDisconnected | bopwire/tools/mini_node.cpp:1196-1202 | The in-place erase is this node's notice of a dead link |
| MiniHello.MeshNode.ReplicationPeers | bopwire/tools/mini_node.cpp:1405-1416 | The snapshot loop lists exactly the protocol's fan-out, each peer once |
| SendQueue.Fifo | bopwire/tools/mini_node.cpp:1287-1315 | Under any interleaving the tasks gone are a prefix of the enqueue order, the queue is the rest and at most 4096 long, what ran is the taken part in order, and a dropped task has 4096 newer ones behind it |
| SendQueue.DropsOnlyOldestOfFull | bopwire/tools/mini_node.cpp:1287-1296 | A drop happens only to the oldest task of a full queue |
| SendQueue.NextTaskRuns | bopwire/tools/mini_node.cpp:1298-1315 | From every reachable state with the sender at work the oldest task is taken within four of its own steps and run by the next |
| SendQueue.QueueDrains | bopwire/tools/mini_node.cpp:1298-1315 | And all that is queued has run, in order, within three steps and two more per task |
| SendQueue.ExitLeavesWorkIff | bopwire/tools/mini_node.cpp:1298-1315 | When the sender exits, work is left behind if and only if something had been enqueued and the stop came before its first test of the running flag |
| SendQueue.StopBeforeStartAbandons | bopwire/tools/mini_node.cpp:1298-1300 | A stop before that test abandons the queue |
| SendQueue.Sender.EnqueueSendTask | bopwire/tools/mini_node.cpp:1287-1296 | The in-place push is the model's enqueue |
| SendQueue.Sender.Step | bopwire/tools/mini_node.cpp:1298-1315 | Each piece of the loop between unlock, lock and test is the model's sender step |
| PlayerPresence.OnlineOfflineAlternate | bopwire/tools/mini_node.cpp:2335-2352 | For every nonempty peer id the broadcasts alternate strictly from online, and the peer is registered exactly when the last is online |
| PlayerPresence.CaughtUpViewIsRight | bopwire/tools/mini_node.cpp:1203-1229 | From every reachable state with the sender at work, its own steps alone, at most three and two per queued task, bring the last executed broadcast about a player to the truth if that player's last event is among the newest 4096 tasks |
| PlayerPresence.OtherTasksShareTheQueue | bopwire/tools/mini_node.cpp:1287-1296 | Other fan-outs share the queue and push out the oldest task of a full one |
| PlayerPresence.StaleAfterDisconnectIff | bopwire/tools/mini_node.cpp:1196-1211 | A peer is still listed after its disconnect if and only if it had also registered as a mini-node |
| PlayerPresence.ListedIff | bopwire/tools/mini_node.cpp:1196-1211 | In every reachable state a peer is listed as a player if and only if it once announced itself and before every disconnect since had sent mini.hello |
| PlayerPresence.GhostPlayer | bopwire/tools/mini_node.cpp:1196-1229 | Such a peer stays online for the mesh and its next announce is not broadcast |
| PlayerPresence.Registry.OnAnnounce | bopwire/tools/mini_node.cpp:2335-2352 | The in-place announce is the model's step |
| PlayerPresence.Registry.OnPeerDisconnected | bopwire/tools/mini_node.cpp:1188-1229 | The in-place disconnect is the model's step |
| ProbeSlots.AtMostEightProbes | bopwire/tools/mini_node.cpp:846-861 | Under any interleaving at most 8 probes run; the counter equals running probes plus callers about to withdraw, and is 0 at quiescence |
| ProbeSlots.RefusedOnlyWhenFull | bopwire/tools/mini_node.cpp:853-857 | A probe is refused if and only if 8 counts are held, which may include other refused callers |
| ProbeSlots.StartedWhenFree | bopwire/tools/mini_node.cpp:853-857 | A probe starts if and only if fewer than 8 counts are held |
| ProbeSlots.FinishFreesSlot | bopwire/tools/mini_node.cpp:853-862 | A finished probe and a refused caller each give their count back, and the next caller finds it free |
| ProbeSlots.CounterFollowsCallers | bopwire/tools/mini_node.cpp:853-857 | n simultaneous callers push the counter to n |
| ProbeSlots.ProbeCounter.TryAcquire | bopwire/tools/mini_node.cpp:853-857 | fetch_add and its test are the model's attempt, granting exactly when a probe starts |
| SignedPreimages.MessageFields | bopwire/tools/mini_node.cpp:545-557 | Where each field of a message preimage stands, byte by byte |
| SignedPreimages.RoomFields | bopwire/tools/mini_node.cpp:561-573 | Where each field of a room preimage stands, the last byte 1 for private and 0 for public |
| SignedPreimages.ModFields | bopwire/tools/mini_node.cpp:577-592 | Where each field of a moderation preimage stands |
| SignedPreimages.ReportFields | bopwire/tools/mini_node.cpp:3316-3328 | Where each field of a report stands in both versions |
| SignedPreimages.CleanPreimageDetermines | bopwire/tools/mini_node.cpp:530-592 | Across all six kinds, a statement without separators in the fields before another variable field is determined by the signed bytes |
| SignedPreimages.KindsNeverCollide | bopwire/tools/mini_node.cpp:3316-3330 | No two kinds share a preimage, whatever the fields; v1 and v2 reports included |
| SignedPreimages.RoomInjective | bopwire/tools/mini_node.cpp:561-573 | Room creation is injective unconditionally |
| SignedPreimages.MessageInjective | bopwire/tools/mini_node.cpp:545-557 | Messages are injective when the room holds no 0x1F |
| SignedPreimages.MessageAmbiguousIff | bopwire/tools/mini_node.cpp:545-557 | A message shares its bytes with one in another, separator-free room if and only if its own room holds a 0x1F |
| SignedPreimages.SameSignerAmbiguousIff | bopwire/tools/mini_node.cpp:545-557 | The same signer's message to another room has the same bytes if and only if the preimage holds a second 0x1F that is followed by the signer's address and eight more bytes |
| SignedPreimages.ModInjective | bopwire/tools/mini_node.cpp:577-592 | Moderation actions are injective when action and room hold no 0x1F; the target may |
| SignedPreimages.ModAmbiguousIff | bopwire/tools/mini_node.cpp:577-592 | For arbitrary field bytes that condition is exact |
| SignedPreimages.KnownActionAmbiguousIff | bopwire/tools/mini_node.cpp:577-592 | For the two actions the handlers accept, another room and target share the bytes if and only if room or target holds a 0x1F |
| SignedPreimages.ReportInjective | bopwire/tools/mini_node.cpp:3316-3328 | Each report version determines its fields, the seeder included |
| SignedPreimages.BuildChatMsgCanon | bopwire/tools/mini_node.cpp:545-557 | The append sequence yields that layout, and fails exactly when the address does not parse |
| SignedPreimages.BuildChatRoomCanon | bopwire/tools/mini_node.cpp:561-573 | Likewise for room creation |
| SignedPreimages.BuildChatModCanon | bopwire/tools/mini_node.cpp:577-592 | Likewise for moderation actions |
| SignedPreimages.BuildReport | bopwire/tools/mini_node.cpp:3316-3328 | Likewise for both report versions |
| Bytes.AppendU64Le | bopwire/tools/mini_node.cpp:530-532 | Shift-and-push appends the little-endian encoding |
| Bytes.LeInjective | bopwire/tools/mini_node.cpp:530-532 | Eight little-endian bytes determine the number |
| Bytes.LeAt | bopwire/tools/mini_node.cpp:530-532 | Byte i of the encoding is the i-th byte of the number from the low end |
| Bytes.HexOfBytesAt | bopwire/tools/mini_node.cpp:3274-3279 | Byte i of an id is written as the lowercase digits of its high and its low half |
| AlbumKey.BytesAreClassified | bopwire/src/art/album_key.h:22-33 | Exactly A-Z are lowered, each to its own letter, and exactly the six C-locale whitespace bytes separate words |
| AlbumKey.NormKey | bopwire/src/art/album_key.h:19-37 | The one-pass loop equals: lowercase, split on whitespace runs, join with single spaces |
| AlbumKey.NormIdempotent | bopwire/src/art/album_key.h:17-37 | Normalising twice changes nothing |
| AlbumKey.NormEqualIff | bopwire/src/art/album_key.h:17-37 | Two strings normalise equally if and only if their lowercased word lists agree |
| AlbumKey.AlbumCompositeEqualIff | bopwire/src/art/album_key.h:42-48 | For artists without 0x1F two composites agree if and only if artist and album agree up to case, spacing and the "singles" fallback |
| AlbumKey.LyricsCompositeEqualIff | bopwire/src/art/album_key.h:65-70 | The same for lyrics, without a fallback |
| AlbumKey.OtherArtistSharesAlbumKeyIff | bopwire/src/art/album_key.h:42-48 | For any artist and album: an album under a differently normalised artist has the same composite if and only if the composite holds a 0x1F, other than the field separator, that has no space beside it and is not the last byte |
| AlbumKey.OtherArtistSharesLyricsKeyIff | bopwire/src/art/album_key.h:65-70 | The same for lyrics, where the last byte counts too because a title may be empty |
| AlbumKey.SeparatorInArtistCollides | bopwire/src/art/album_key.h:42-48 | The simplest such input: an artist made of two words joined by a 0x1F shares its composite with another artist |
| AlbumKey.BuildAlbumComposite | bopwire/src/art/album_key.h:42-47 | The appends yield that composite |
| ArtScraper.TombstoneRoundTrip | bopwire/src/art/art_scraper.cpp:27-43 | A tombstone holds a fetch back for exactly its retry time after its stamp |
| ArtScraper.FetchedIff | bopwire/src/art/art_scraper.cpp:94-107 | A scan with budget left fetches an album if and only if nobody has stored a cover for it and its latest attempt is due |
| ArtScraper.OutcomeIsStored | bopwire/src/art/art_scraper.cpp:110-123 | Code 0 with a nonempty image stores that image and clears the tombstone, code 1 leaves a miss and anything else an error; no other row changes |
| ArtScraper.UploadIsStoredIff | bopwire/src/api/rats_api.cpp:1101-1128 | A nonempty upload is accepted if and only if the album has no cover or a moderator asks, and once written it is the cover without a tombstone |
| ArtScraper.ScanStartsAndEnds | bopwire/src/art/art_scraper.cpp:93-95 | A sleeping scraper starts a scan with its whole budget, and every scan can end, with no row changed |
| ArtScraper.RetryDiscipline | bopwire/src/art/art_scraper.cpp:75-127 | Over any interleaving of scans and uploads from an empty keyspace: no fetch after a fetched cover, 7 days after a miss, 1 hour after an error, and no fetch begins once either writer has stored a cover |
| ArtScraper.CoexistIff | bopwire/src/art/art_scraper.cpp:100-122 | A cover and a tombstone stand together if and only if the latest fetch failed and the latest upload stored for the album fell between its check and its store |
| ArtScraper.OverwritesIff | bopwire/src/api/rats_api.cpp:1101-1128 | First writer wins except across a check: a scraped cover or an ordinary upload overwrites a cover if and only if the album's first cover was stored between its own check and its store; a moderator's upload overwrites any |
| ArtScraper.HistoryIsTold | bopwire/src/art/art_scraper.cpp:94-127 | Every attempt runs from its check event to its store event with that event's outcome, and the latest upload is the event at its position |
| ArtScraper.PassedOverIff | bopwire/src/art/art_scraper.cpp:100-103 | An album is passed over if and only if it has a cover from either writer or its latest attempt is not due |
| ArtScraper.AtMostFortyFetches | bopwire/src/art/art_scraper.cpp:94-98 | A scan adds at most 40 fetches, whatever the API does meanwhile |
| ArtScraper.IsNegativeCached | bopwire/src/art/art_scraper.cpp:36-43 | The byte-shifting reader decodes the stamp and applies the right retry time, short rows included |
| ArtScraper.BuildStatusRow | bopwire/src/art/art_scraper.cpp:27-33 | The writer yields the 9-byte row |
| ArtScraper.Scraper.CheckUpload | bopwire/src/api/rats_api.cpp:1101-1118 | The in-place check of art.put is the model's step |
| ArtScraper.Scraper.StoreUpload | bopwire/src/api/rats_api.cpp:1119-1128 | The in-place blob and tombstone writes are the model's step |
| ArtScraper.Scraper.CheckAlbum | bopwire/src/art/art_scraper.cpp:100-103 | The two lookups are the model's check, on rows another thread may have changed |
| ArtScraper.Scraper.StoreOutcome | bopwire/src/art/art_scraper.cpp:109-123 | The writes after a fetch are the model's store |
| ArtScraper.Scraper.ScanOnce | bopwire/src/art/art_scraper.cpp:94-127 | The in-place loop, cut anywhere by stop() and with arbitrary uploads around every check and during every fetch, is a run of the model |

## Left out

Environment, as parameters or events:

- Time: `mono_ms` and `now_ms` are a clock field that only `Tick` advances, or a time carried by the event; the
  steady clock's 64-bit nanosecond range keeps millisecond sums such as `created_ms + 9000` far from 2^64.
- Sends: a result or a set of targets reached, chosen by the environment; librats, sockets and JSON parsing are
  not modelled, handlers start from decoded fields.
- Cryptography: `route_verify` and address parsing are arbitrary functions; the proof checks before the delivery
  lookup in proof.cosign are one boolean, the final digest comparison another; SHA-256 of the art keys is not
  applied, properties are about what is hashed.
- Randomness: the id counter's seed and the sampler's draws are inputs.

Simplifications of atomicity:

- The sweeper's timeout sends and the reaper's reports happen within the step that collected them; the reaper
  reads its clock in the step that uses it.
- PlayerPresence: the table update and the push of one handler are one step; both run on the io thread.
- MiniHello: the io thread of a node runs its callbacks one at a time, and a link keeps the order of frames within
  each of its two lanes. Hellos are below the 16 KiB bound of the fast lane.
- MiniHello.RegistrationIsAnswered: a link carries messages again only after both ends have run their disconnect
  handler; a redial that overtakes the old link's disconnect callback is not modelled.
- ArtScraper: the blob and tombstone writes that follow a fetch, and those that follow the check of an upload, are one
  step each. The image checks of art.put are reduced to nonempty, the moderator signature to a flag, and the
  scraper's own database writes do not fail.
- SendQueue.NextTaskRuns: counts the steps of the sender thread; that a sleeping thread is woken by notify_one, and that
  a task returns, is the scheduler's and the task's part.
- MeshFlood: one body is followed; other routes appear as dedup calls. `FloodCompletes` chooses the arrival times.

Not modelled:

- DeliveryLedger.Ledger.ReapDeliveries: does not store `seeder_pid` in the row, because nothing ever reads it.
- RouteTable.Routes.IngestRoute: does not carry the load, address and reachability fields, because no admission
  decision depends on them.
- ArtScraper.Scraper.ScanOnce: starts from the list of distinct albums; the filter over the song table that builds
  it and the throttle sleeps are not modelled.
- AlbumKey.NormKey: C-locale classification of single bytes, as the unsigned-char loop uses it.
- ProbeSlots.ProbeCounter.TryAcquire: does not model a thread that fails to start, which would keep its count.
- Parsing of the 'F' frame header and the 9-byte NACK: fixed-offset slicing.
- `wallet_parse_amount`, the operator wallet, chat rings, room caps, ban lists, moderator cache: easy bounds or
  input checks.
- UPnP, STUN, speed test, curses screens, configuration, thread start and join: I/O and plumbing.
