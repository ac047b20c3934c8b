# Resurrect: verified model

Resurrect lets an isolated peer-to-peer node find peers again: seeds announce signed peer records through a
beacon contract, and nodes scan the recent announcements, keep a bounded sample of candidates and dial them.
This project models the parts of the repository whose correctness depends on several pieces fitting together, and
proves what those pieces promise. `dafny verify dfyconfig.toml` checks all of it.

| file | models |
|---|---|
| `Common.dfy` | machine integers, option and result types, big-endian bytes |
| `Candidates.dfy` | peer candidates, the freshness order, the bounded candidate store |
| `Registry.dfy` | the beacon, envelope validation, the chain view and an adversarial provider |
| `LogQueries.dfy` | the adaptive sequence of log queries that both scanners make |
| `Scanner.dfy` | the registry scan: start-block search, chunked log scan, the whole scan |
| `BrowserScanner.dfy`, `BrowserWindow.dfy`, `AbiData.dfy` | the browser's scan, its block lookback and its strict ABI decoder |
| `Swarm.dfy` | the libp2p behaviour that turns dial requests into swarm actions |
| `Host.dfy` | the native host's event loop and its published snapshot |
| `Bootstrap.dfy` | the bootstrap cycle and its bounded parallel dialing |
| `OnchainSite.dfy` | byte storage in contract code, the resource router, the deploy script |
| `SigningFrame.dfy` | the varint and the signing frame of signed envelopes |
| `PeerCache.dfy` | the on-disk record cache |
| `Renewal.dfy`, `Supervisor.dfy` | self-announcement and renewal, retry delays and the long-running loop |

## How to read it

Code that updates state in place is a class or a method with loops (`CandidateStore`, `Behaviour`, `EventLoop`,
`World`, `SqlitePeerCache`, `RegistryAnnouncer`, `ByteBuffer`, `ScanLogs`, `DialCandidates`, `Construct`). Where the
claims are about whole runs, each method is proved equal to a pure step function and the claims are proved about every
sequence of steps (`Swarm.Run`, `Host.Run`); what the environment decides (answers, failures, random draws, order of
events) is an input of the step.

Main results:

- **Scan.** `Scanner.Scan` composes the beacon's expiry rule, the timestamp search, the chunked scan and the sample:
  below the log cap its candidates are the best sample of every announcement since deployment, only good logs are
  listed and every good log's peer is found. `Candidates.OnlineEqualsBatch` says what that sample is,
  `Scanner.ScheduleIndependence` that no pattern of range refusals matters, `LogQueries.HistoryCovers` that the answers
  tile the window. `BrowserScanner.ScanRegistry` proves the same for the browser's scan of raw event data, with the
  timestamp search and with the archive-free lookback.
- **Dialing.** `Swarm.EveryRunIsSafe` and `Host.EveryRunIsSafe` hold over every interleaving, and
  `Host.ViewsFollowInputs` reads the host's state off its inputs; `Bootstrap.SessionIsOrderly` gives the in-flight
  limit and the makespan bound of every dialing session, `Bootstrap.RunCycle` the cycle traces.
- **On-chain bytes.** `OnchainSite.InitCodeDeploysPayload` runs the assembled init code on a small EVM;
  `Construct`, `DeploySite` and `RoundTrip` carry files through splitting, storage and reassembly.
- **Codecs, cache and timing.** Exactness of the ABI decoder, unambiguity of the signing frame, agreement of the
  cache with the freshness order and exactly where it departs from it, renewal and backoff arithmetic.

## Assumptions

- Hashes, signatures, record codecs, identity and address parsers are arbitrary deterministic functions. Results that
  need scores (or collation) of different identities to differ say so (`DistinctScores`); `Scanner.ScanScoresDiffer` and
  `BrowserScanner.BrowserScoresDiffer` derive it from a collision-free hash.
- A scan sees one fixed chain; `NonDecreasing`, `FromBeacon` and `SpacedBy` state what is needed of it. The provider
  answers truthfully from that chain or fails, in any pattern.
- A peer or address is identified with its canonical text. Numbers are unbounded unless the source's width matters;
  widths, wrap-around and saturation are then written out. JavaScript's `Number(length)` is taken as exact, which the
  preceding length check guarantees for any string an engine can hold.
- The candidate store's sort and the host's sort are library sorts, modelled as repeated selection.

## Where the code departs from its description

- The cache is described as replacing older records by newer ones, and the candidate order breaks ties of sequence and
  block by log index. The conflict clause ignores the log index: `PeerCache.LogIndexIsIgnored` shows a fresher record
  displaced, `PeerCache.UpsertAgainstFreshness` and `PeerCache.BestIsFreshest` say exactly when cache and order agree.
- The host's snapshot reports no native peers until its first publication, although configured peers are known:
  `Host.UnpublishedNativeCount` says exactly when that is right.
- If the clock cannot be read after a submitted announcement, the announcement stands but is reported as an error and the
  renewal time stays put (`Renewal.RegistryAnnouncer.Announce`).

## Model

| member | source | states |
|---|---|---|
| `Beacon.Announce` | contracts/src/ResurrectBeaconV1.sol:27-38 | Emits exactly for a TTL of 1 to 7,776,000 seconds, a record of 1 to 4096 bytes and an expiry that fits 64 bits; the event expires a TTL after its block |
| `RegistryChain.EmittedLifetime` | contracts/src/ResurrectBeaconV1.sol:30-37 | An event expires strictly after its block and at most MAX_TTL later |
| `Validation.ValidationGuards` | crates/resurrect-core/src/validation.rs:79-132 | An envelope that fails a check is refused whatever codecs are registered; an accepted candidate is unexpired, bounded, of the announced type and carries the announcement's position |
| `Validation.ValidationIsExact` | crates/resurrect-core/src/validation.rs:79-132 | An announcement is accepted if and only if it passes every check and its codec vouches for it, and the candidate is what the codec decoded, stamped with the announcement's expiry and position |
| `Scanner.FindStartBlock` | crates/resurrect-ethereum/src/scanner.rs:277-302 | Returns the least block at or after the cutoff (the head when there is none) on any chain with non-decreasing timestamps; reads at most floor(log2(head - deployment)) + 1 blocks, all different and between deployment and head, all answered on success; fails only on its last read |
| `Scanner.ScanLogs` | crates/resurrect-ethereum/src/scanner.rs:161-237 | For any pattern of range refusals: exactly the first max_logs logs of the window are processed, once and in order; each query is the one the verdicts so far call for, the answered ones tile the window when uncapped, and r reductions satisfy 2^(r-1)*(minimum+1) <= initial; no 64-bit arithmetic overflows; it ends, and fails only when its last query, inside the window, was refused with no smaller chunk to try |
| `Scanner.TakeChunk` | crates/resurrect-ethereum/src/scanner.rs:200-224 | One answered query contributes exactly as many of its logs as the cap still allows |
| `Scanner.Absorb` | crates/resurrect-ethereum/src/scanner.rs:200-224 | Every log of a batch is either rejected or handed to the store, in order |
| `LogQueries.ReduceChunk` | crates/resurrect-ethereum/src/scanner.rs:192-196 | A reduction strictly shrinks the chunk and keeps the reduction budget |
| `LogQueries.HistoryCovers` | crates/resurrect-ethereum/src/scanner.rs:182-228 | In every history of queries that may continue, the answered ranges tile the window so far, in order and without gap, and the reductions are within budget |
| `LogQueries.HistoryIsDetermined` | crates/resurrect-ethereum/src/scanner.rs:182-228 | The verdicts of the provider decide every query: no two histories of one length differ |
| `LogQueries.StoppedInside` | crates/resurrect-ethereum/src/scanner.rs:189-199 | The refusal that ends a scan lies inside the window, and one for the range was of a chunk no larger than the minimum |
| `Scanner.ScheduleIndependence` | crates/resurrect-ethereum/src/scanner.rs:182-236 | Two successful scans of one window agree on counts and candidates whatever chunk sizes and refusals each met, given distinct scores |
| `Scanner.ConfirmedHeadIsOnChain` | crates/resurrect-ethereum/src/scanner.rs:239-264 | The head is a block of the provider's chain, whichever fallback produced it |
| `Scanner.HeadFollowsTags` | crates/resurrect-ethereum/src/scanner.rs:239-264 | The head is the finalized block, else the safe one, else the latest less the configured confirmations, from the provider's tags alone; any error but an unsupported tag fails it |
| `Scanner.LogsBeforeStartAreExpired` | crates/resurrect-ethereum/src/scanner.rs:135-144 | Everything before the searched start block has expired at the head's clock |
| `Scanner.WindowScanIsComplete` | crates/resurrect-ethereum/src/scanner.rs:135-151 | A window scan below the log cap yields the best sample of every announcement since deployment |
| `Scanner.Scan` | crates/resurrect-ethereum/src/scanner.rs:105-159 | End to end, in the chain's own terms: a success reports the head, whether the checkpoint's block is gone or has another hash, and a window that begins with the least block from which something could still be alive; every listed candidate comes from a log of that window whose namespace and type are the descriptor's, that is unexpired, of 1 to 4096 bytes, and whose codec decodes it with few enough endpoints; uncapped on a beacon chain with non-decreasing timestamps, the candidates are the sample of every announcement from deployment to head, and every such good log's peer is listed with at least its sequence when the identities fit the cap; each failure is explained by the descriptor, the deployment, the head, the checkpoint, an unread block, or the refusal that ends the query history |
| `Scanner.AnsweredScanSucceeds` | crates/resurrect-ethereum/src/scanner.rs:105-159 | Where the provider answers everything and the registry is deployed as described, the only fault a scan can have is a head before the deployment block |
| `Scanner.PolicyAdmitsGoodLogs` | crates/resurrect-ethereum/src/scanner.rs:205-213 | The policy of a scan lets through exactly the logs of the descriptor's namespace and types that are live at the head, within 4096 bytes, and vouched for by their codec within the configured endpoints |
| `Scanner.GoodLogsAreFound` | crates/resurrect-ethereum/src/scanner.rs:105-159 | A complete scan lists the peer of every good log, with at least its sequence, when the identities of the good logs fit the cap |
| `Scanner.ListedAreGood` | crates/resurrect-ethereum/src/scanner.rs:200-224 | Everything a scan lists carries the record of a good log of its window, as its codec decoded it |
| `Scanner.SeedsDiffer` | crates/resurrect-ethereum/src/scanner.rs:327-336 | Absent hash collisions, two scans share a sampling seed only if node, head and namespace agree |
| `Scanner.ScanScoresDiffer` | crates/resurrect-ethereum/src/scanner.rs:169-175 | Absent hash collisions, the scores of a scan tell every two identities apart |
| `Scanner.AnnouncedSeedIsFound` | crates/resurrect-ethereum/src/scanner.rs:105-159 | An announced seed that validates at the head is found, unexpired and with at least the announced sequence, whenever the identities fit the cap |
| `Candidates.KeyBytesAreUnambiguous` | crates/resurrect-core/src/peer_record.rs:74-79 | The composite identity key never confuses two codecs or two peers |
| `Candidates.FreshnessIsLexicographic` | crates/resurrect-core/src/validation.rs:292-305 | Freshness compares sequence, then block, then log index |
| `Candidates.KeyedScoresDiffer` | crates/resurrect-core/src/validation.rs:284-289 | Absent hash collisions, different identities have different scores under one seed |
| `Candidates.EachEndpointCounts` | crates/resurrect-libp2p/src/behaviour.rs:196-205 | The addresses to dial are those of the endpoints that parse, all of them, in order |
| `Candidates.CandidateStore.Insert` | crates/resurrect-core/src/validation.rs:239-273 | Keeps the lowest-scoring identities ever offered, each with its freshest record; the four outcomes say exactly what changed |
| `Candidates.CandidateStore.Worst` | crates/resurrect-core/src/validation.rs:259-264 | The kept identity with the highest score |
| `Candidates.CandidateStore.Ranked` | crates/resurrect-core/src/validation.rs:275-282 | Lists every kept candidate once by ascending score |
| `Candidates.SampleRefresh` | crates/resurrect-core/src/validation.rs:241-248 | A further record of a kept identity replaces it exactly when fresher |
| `Candidates.SampleGrow` | crates/resurrect-core/src/validation.rs:249-252 | Below the cap, a new identity was never seen before and joins the sample |
| `Candidates.SampleContest` | crates/resurrect-core/src/validation.rs:253-272 | At the cap, an outsider enters exactly when it beats the worst score, and one that enters was never seen before: evicted identities never return |
| `Candidates.OnlineEqualsBatch` | crates/resurrect-core/src/validation.rs:239-282 | With distinct scores the online sample is the batch sample: the identities of rank below the cap, each with its freshest record |
| `Candidates.RankingIsUnique` | crates/resurrect-core/src/validation.rs:275-282 | Distinct scores leave exactly one ranking of a sample |
| `Candidates.RankedSampleIsUnique` | crates/resurrect-core/src/validation.rs:239-282 | Distinct scores leave exactly one ranked sample of a history |
| `Candidates.RankedSampleIgnoresOrder` | crates/resurrect-core/src/validation.rs:239-305 | With distinct scores and positions the ranked sample is the same for every order and repetition of the input |
| `Candidates.NothingFreshIsLost` | crates/resurrect-core/src/validation.rs:239-305 | While the identities fit the cap, each is listed with a record no offered record is fresher than |
| `Candidates.FreshestIgnoresOrder` | crates/resurrect-core/src/validation.rs:292-305 | An identity's freshest record does not depend on arrival order when positions are distinct |
| `BrowserWindow.LogsBelowWindowAreExpired` | packages/ts/src/scanner.ts:46-70 | With blocks at least s seconds apart and L*s >= MAX_TTL, no announcement below the lookback window is valid at the latest block's clock, for any confirmations and deployment |
| `BrowserWindow.ConfirmationsAreDeducted` | packages/ts/src/scanner.ts:47-48 | The confirmed head lies exactly the confirmations below the latest block, or at the first block |
| `BrowserWindow.LookbackSpan` | packages/ts/src/scanner.ts:67-70 | The lookback window holds exactly the configured number of blocks, unless the deployment is nearer |
| `BrowserWindow.LookbackWindowIsComplete` | packages/ts/src/scanner.ts:46-70 | The window accepts exactly what scanning every block since deployment would |
| `BrowserWindow.EthereumProfileIsComplete` | packages/ts/src/descriptor.ts:11-12 | 650,000 blocks of 12 seconds are such a lookback |
| `BrowserWindow.ShorterLookbackMisses` | packages/ts/src/scanner.ts:67-70 | Any shorter lookback loses a valid announcement on some correctly spaced chain |
| `BrowserScanner.CandidateMap.InsertBounded` | packages/ts/src/scanner.ts:231-257 | Keeps the lowest-scoring identities ever offered, each with its freshest record |
| `BrowserScanner.CandidateMap.Worst` | packages/ts/src/scanner.ts:248-252 | A kept identity with the highest score |
| `BrowserScanner.SortByFreshness` | packages/ts/src/scanner.ts:134-134 | Every kept candidate once, fresher first, equally fresh ones by peer id |
| `BrowserScanner.FreshnessListingIsUnique` | packages/ts/src/scanner.ts:270-272 | Peer ids that collate apart leave exactly one listing |
| `BrowserScanner.ListedSampleIsUnique` | packages/ts/src/scanner.ts:231-272 | With scores and collation that tell identities apart, a history has one listed sample |
| `BrowserScanner.JudgeLogs` | packages/ts/src/scanner.ts:99-123 | Each log of an answered query is counted, judged from its text and inserted in order until the cap |
| `BrowserScanner.JudgedAsAnnounced` | packages/ts/src/scanner.ts:103-118 | Decoding loses nothing: a log is judged exactly as the announcement its topics and data present |
| `BrowserScanner.JudgedAsAccepted` | packages/ts/src/scanner.ts:99-123 | Judging the logs of a node is judging the announcements they present |
| `BrowserScanner.JudgingIsExact` | packages/ts/src/scanner.ts:99-123 | A log is accepted if and only if it is not removed, comes from the registry, and presents an announcement of the namespace and type that is live and vouched for; the candidate is what the codec decoded |
| `BrowserScanner.GoodAnnouncementsAreFound` | packages/ts/src/scanner.ts:39-136 | A complete scan lists the peer of every good announcement, with at least its sequence, when their identities fit the cap |
| `BrowserScanner.BrowserScoresDiffer` | packages/ts/src/scanner.ts:259-261 | Absent hash collisions, the scores of a scan tell every two peers apart |
| `BrowserScanner.ScanWindow` | packages/ts/src/scanner.ts:74-135 | For any pattern of range refusals: exactly the first maxLogs logs of the window; each query is the one the verdicts so far call for, tiling when uncapped, with bounded reductions; fails only when its last query was refused with no smaller chunk to try |
| `BrowserScanner.SearchedWindowSkipsNothing` | packages/ts/src/scanner.ts:58-66 | The timestamp search skips nothing that would be accepted |
| `BrowserScanner.LookbackSkipsNothing` | packages/ts/src/scanner.ts:67-70 | A covering lookback skips nothing that would be accepted |
| `BrowserScanner.ChosenHeadIsOnChain` | packages/ts/src/scanner.ts:46-57 | The head number is the latest less the confirmations; with a lookback the scan lives by the latest block of the chain, otherwise by the confirmed one |
| `BrowserScanner.ChooseStart` | packages/ts/src/scanner.ts:58-70 | The start block of either window; fails only when a block between deployment and head cannot be read |
| `BrowserScanner.ScanRegistry` | packages/ts/src/scanner.ts:39-136 | End to end, for either window: invalid options are exactly the out-of-range ones; a success reports the head the confirmations below the provider's latest block (or the first block), the clock and the start of its window from the provider and the options alone; everything listed comes from a good log of the window; when the logs present the announcements of a beacon chain, an uncapped success gives the sample of every announcement from deployment to head and lists every good one's peer; every failure is explained by the chain, the constants, the head, an unread block of the search, or the refusal that ends the query history |
| `BrowserScanner.AnsweredScanSucceeds` | packages/ts/src/scanner.ts:39-136 | Where the provider answers everything and the registry is deployed as described, the only fault is a confirmed head before the deployment block |
| `AbiData.DecodeAcceptsEncodings` | packages/ts/src/scanner.ts:178-199 | Every canonical encoding of (uint64, bytes), in any digit case, decodes to its value and bytes |
| `AbiData.DecodeAcceptsOnlyEncodings` | packages/ts/src/scanner.ts:178-199 | Whatever is accepted is, up to digit case, the canonical encoding of what is returned |
| `AbiData.DecodeAcceptsExactlyEncodings` | packages/ts/src/scanner.ts:178-199 | The decoder accepts a text if and only if it is a canonical encoding |
| `AbiData.DecodeIsInjective` | packages/ts/src/scanner.ts:178-199 | No two case-normalised inputs decode to the same pair |
| `Swarm.Behaviour.Resolve` | crates/resurrect-libp2p/src/behaviour.rs:169-175 | Answers every waiter of a peer, in order, and forgets them |
| `Swarm.Behaviour.Reject` | crates/resurrect-libp2p/src/behaviour.rs:177-181 | Answers false and reports why |
| `Swarm.Behaviour.Accept` | crates/resurrect-libp2p/src/behaviour.rs:183-216 | Refines the pure accept step: type, identity, connected, endpoint and dial branches |
| `Swarm.Behaviour.OnSwarmEvent` | crates/resurrect-libp2p/src/behaviour.rs:254-289 | Refines the pure event step: publish, then wake, then report; `NextKeepsTruth` and `NextReportsTruth` say what the step answers and reports |
| `Swarm.Behaviour.Poll` | crates/resurrect-libp2p/src/behaviour.rs:292-308 | Refines the pure poll step |
| `Swarm.EveryRunIsSafe` | crates/resurrect-libp2p/src/behaviour.rs:169-308 | Over every interleaving: waited-for peers are not connected; the published count is the number of peers with an open connection; requests are answered once or wait under their own peer; a request is answered true exactly when it names a libp2p peer connected at that moment; connections are reported only for connected peers and dial failures only for unconnected ones; every dial and rejection has a request that calls for it; dials and their reports are paired and each peer's events stay in order |
| `Swarm.NextKeepsConnectivity` | crates/resurrect-libp2p/src/behaviour.rs:183-289 | Each step keeps the count and the separation of waiting and connected peers |
| `Swarm.NextKeepsRequests` | crates/resurrect-libp2p/src/behaviour.rs:169-216 | Each step keeps every received request answered once or waiting once |
| `Swarm.NextKeepsTruth` | crates/resurrect-libp2p/src/behaviour.rs:254-275 | Each step answers true exactly for a libp2p request whose peer is connected, as the published count has it |
| `Swarm.NextReportsTruth` | crates/resurrect-libp2p/src/behaviour.rs:183-289 | Each step reports a connection only for a connected peer and a failed dial only for an unconnected one |
| `Swarm.NextIsJustified` | crates/resurrect-libp2p/src/behaviour.rs:183-289 | Each step keeps, for every dial and rejection, a request that calls for it: the addresses dialed are those of its endpoints that parse, the reason given is the first that applies |
| `Swarm.NextSettlesWaiting` | crates/resurrect-libp2p/src/behaviour.rs:254-308 | A connection with the peer or a failed dial of it ends every wait for it, a poll only adds to the waiting requests, and nothing else touches them |
| `Swarm.WaitingIsUnsettled` | crates/resurrect-libp2p/src/behaviour.rs:183-289 | Whoever waits was admitted by a poll after which its peer neither connected nor failed |
| `Swarm.NextKeepsEvents` | crates/resurrect-libp2p/src/behaviour.rs:183-289 | Each step keeps the pairing and the per-peer order of events |
| `Swarm.AnsweredOnceOrWaiting` | crates/resurrect-libp2p/src/behaviour.rs:169-216 | A received request has been answered exactly once or waits exactly once, never both; one still in the channel is neither |
| `Swarm.ReturnedIsPrefix` | crates/resurrect-libp2p/src/behaviour.rs:292-308 | What polls have returned is a first-in-first-out prefix of what is ever enqueued |
| `Swarm.PollAdmission` | crates/resurrect-libp2p/src/behaviour.rs:292-308 | A request is admitted only when the queue is empty, and admission stops at the first that acts |
| `Swarm.ObservedEventsAreWellFormed` | crates/resurrect-libp2p/src/behaviour.rs:183-289 | What the application sees of one peer is rounds of one or more dials and one outcome, then possibly open dials |
| `Host.EventLoop.Dial` | crates/resurrect-node/src/p2p.rs:380-409 | Refines the pure dial step with all six branches |
| `Host.EventLoop.HandleSwarm` | crates/resurrect-node/src/p2p.rs:411-483 | Refines the pure event step; `SnapshotFollowsInputs`, `ViewsFollowInputs` and `AnswersFollowInputs` say what every run of it does |
| `Host.EventLoop.PublishStatus` | crates/resurrect-node/src/p2p.rs:507-522 | The snapshot lists the connected peers and the listeners in sorted order, whatever order the sets iterate in |
| `Host.EventLoop.Wake` | crates/resurrect-node/src/p2p.rs:432-457 | Removes a peer's waiters and answers each, in order |
| `Host.EventLoop.AddVerified` | crates/resurrect-node/src/p2p.rs:361-366 | Stores a verified record under its parsed identity and publishes in either case |
| `Host.EventLoop.PruneDialWaiters` | crates/resurrect-node/src/p2p.rs:370-375 | The pending map afterwards holds exactly the open waiters |
| `Host.EventLoop.NativeCandidates` | crates/resurrect-node/src/p2p.rs:485-505 | One unsigned, never-expiring candidate per native peer, with exactly its addresses |
| `Host.EveryRunIsSafe` | crates/resurrect-node/src/p2p.rs:358-483 | Over every interleaving of commands, swarm events, timeouts and prunes: pending peers are not connected and never have an empty list, and each has been dialed at every address its candidate names; the snapshot's lists equal the sorted sets; a request is answered as connected exactly when the snapshot of that moment lists its peer, and otherwise refused for its own first defect; each request is settled once unless its receiver is gone; the native count is right from the first publication |
| `Host.SnapshotFollowsInputs` | crates/resurrect-node/src/p2p.rs:411-440 | Read off the inputs alone: the snapshot lists a peer exactly when an establishment with it is not followed by the close of its last connection, and an address exactly when its listener event is not followed by its expiry |
| `Host.ViewsFollowInputs` | crates/resurrect-node/src/p2p.rs:358-483 | Every entry of the loop's views (connections, listeners, native addresses, verified records) is there exactly when the last input about it gave it |
| `Host.NativePeersFollowInputs` | crates/resurrect-node/src/p2p.rs:458-483 | A native peer is known exactly while it has an address, or identify has introduced it and no expiry has named it since |
| `Host.AnswersFollowInputs` | crates/resurrect-node/src/p2p.rs:380-457 | A request waits only while no establishment or failure of its peer has come since its dial; a dial fails only in the words of the swarm |
| `Host.PruneIsExact` | crates/resurrect-node/src/p2p.rs:370-375 | Pruning removes exactly the closed waiters and the lists it empties |
| `Host.DiscoveryAdds` | crates/resurrect-node/src/p2p.rs:458-463 | Discovery adds exactly the addresses found and forgets nobody |
| `Host.ExpiryRemoves` | crates/resurrect-node/src/p2p.rs:464-474 | Expiry removes exactly the addresses lost, and a peer exactly when an expiry leaves it without any |
| `Host.NativeCandidateIsDialable` | crates/resurrect-node/src/p2p.rs:380-409 | A native candidate passes the type and identity checks of dial, waits under its own peer when it has an address, and never displaces a signed record |
| `Host.UnpublishedNativeCount` | crates/resurrect-node/src/p2p.rs:320-340 | Before the first publication the native count is right exactly when no native peer was configured |
| `Listings.ListingIsSorted` | crates/resurrect-node/src/p2p.rs:507-516 | A published list holds each member once in strictly ascending order |
| `Bootstrap.DialCandidates` | crates/resurrect-bootstrap/src/lib.rs:245-273 | Runs a legal session: dials start in order, at once when a slot is free; the one due first ends, after what it takes or the timeout, whichever is less; a reading follows each ending; it stops at the first reading of at least max(1, minimum_successful_peers) or with every dial ended. Hence each dial once, never more than max(1, maximum_parallel_dials) = p at a time, and an end within ceil(n/p) timeouts on the session clock |
| `Bootstrap.SessionIsOrderly` | crates/resurrect-bootstrap/src/lib.rs:255-272 | Every legal session is orderly, whatever each dial does: candidate order, no repeats, endings after their own starts at exact moments, at most p in flight at every point, time that never runs backwards, the makespan |
| `Bootstrap.AwaitOne` | crates/resurrect-bootstrap/src/lib.rs:258-271 | Ends exactly the running dial that is due first, at its moment, and takes the next reading |
| `Bootstrap.Refill` | crates/resurrect-bootstrap/src/lib.rs:258-263 | Starts dials in order until p run or none is left |
| `Bootstrap.SlotFreesInTime` | crates/resurrect-bootstrap/src/lib.rs:258-266 | With every slot taken, the earliest finish is within the next dial's wave, whatever each dial does |
| `Bootstrap.LastWaveEnds` | crates/resurrect-bootstrap/src/lib.rs:258-266 | The last wave ends within ceil(n/p) timeouts |
| `Bootstrap.Stage` | crates/resurrect-bootstrap/src/lib.rs:189-226 | One source: its query, the offers, a legal and orderly session over its answer, and its transitions, with a source error treated as no candidates |
| `Bootstrap.RunCycle` | crates/resurrect-bootstrap/src/lib.rs:179-243 | For all adapters: transitions follow the fixed grammar; the effects are one reading and then the consultations in order, each a legal and orderly session that begins at the reading and moment the one before ended with; a connected outcome ends with a reading of at least max(1, minimum_successful_peers) and every other reading is below that; registry candidates are all offered before any registry dial; announcement happens at most once, last, and only after every reading was below target; the outcome says so exactly |
| `Bootstrap.Promote` | crates/resurrect-bootstrap/src/lib.rs:229-242 | The isolated end: announce if eligible, return its error, else back off |
| `Bootstrap.IsolatedTranscript` | crates/resurrect-bootstrap/src/lib.rs:229-242 | An isolated trace announces exactly when the outcome says so and never claims a connection |
| `Bootstrap.SegmentSpelled` | crates/resurrect-bootstrap/src/lib.rs:245-273 | One source leaves its own entry, a dialing entry exactly when it named candidates, and its entry again when a dial reached the target |
| `OnchainSite.InitCodeDeploysPayload` | contracts/src/ResurrectOnchainSite.sol:29-34 | For every payload of 1 to 24,000 bytes the assembled init code deploys the sentinel followed by the payload |
| `OnchainSite.LengthFits` | contracts/src/ResurrectOnchainSite.sol:29-31 | The 16-bit length never truncates |
| `OnchainSite.World.Write` | contracts/src/ResurrectOnchainSite.sol:25-36 | Refuses empty and oversized data; otherwise a fresh address holds the data, and reading it back gives the data |
| `OnchainSite.Copy` | contracts/src/ResurrectOnchainSite.sol:38-53 | Writes exactly the payload at the offset and nothing else |
| `OnchainSite.World.DeployChunks` | contracts/script/DeployResurrectExplorer.s.sol:66-79 | Splits a file into the fewest chunks of at most 24,000 bytes; together they hold the file byte for byte |
| `OnchainSite.CopyOut` | contracts/script/DeployResurrectExplorer.s.sol:73-76 | The byte loop copies exactly one slice |
| `OnchainSite.Construct` | contracts/src/ResurrectOnchainSite.sol:80-118 | Succeeds on exactly the acceptable arguments and then holds exactly the declared resources; a refusal names the first resource with a defect |
| `OnchainSite.GatherChunks` | contracts/src/ResurrectOnchainSite.sol:103-112 | Records a resource's chunks and their total length, or names an ill-sized chunk |
| `OnchainSite.ConstructedSiteIsIntact` | contracts/src/ResurrectOnchainSite.sol:94-116 | Every accepted resource is exactly as long as its chunks |
| `OnchainSite.Request` | contracts/src/ResurrectOnchainSite.sol:124-152 | The bare request serves the index file, one segment the file it names, anything else is not found; a file goes out with status 200, its bytes and type, cacheable forever, a miss with status 404 and never cached |
| `OnchainSite.FillBuffer` | contracts/src/ResurrectOnchainSite.sol:142-148 | All copies stay inside the response buffer and fill it completely |
| `OnchainSite.ChunkBytesStable` | contracts/src/ResurrectOnchainSite.sol:142-148 | Later deployments do not change what a resource's chunks hold |
| `OnchainSite.DeploySite` | contracts/script/DeployResurrectExplorer.s.sol:54-63 | Absent creation failures, deployment succeeds exactly for non-empty files with distinct path hashes including the index, and the site serves them |
| `OnchainSite.RoundTrip` | contracts/src/ResurrectOnchainSite.sol:124-152 | Each deployed file is served byte for byte with its content type, and the bare request serves the index file |
| `SigningFrame.ByteBuffer.AppendUvarint` | crates/resurrect-libp2p/src/signed_peer_record.rs:210-216 | Appends the varint of the value |
| `SigningFrame.ReadInvertsWrite` | crates/resurrect-libp2p/src/signed_peer_record.rs:210-216 | A written varint reads back to its value and leaves what follows untouched |
| `SigningFrame.UvarintGroups` | crates/resurrect-libp2p/src/signed_peer_record.rs:210-216 | Byte i holds the i-th group of seven bits, and its high bit says whether more follow |
| `SigningFrame.UvarintIsPrefixFree` | crates/resurrect-libp2p/src/signed_peer_record.rs:210-216 | No varint is a prefix of another |
| `SigningFrame.SigningInput` | crates/resurrect-libp2p/src/signed_peer_record.rs:197-208 | Reading three length-prefixed fields off the result gives the domain libp2p-peer-record, the payload type and the payload, in that order, with nothing after them; it fits the reserved capacity |
| `SigningFrame.SigningInputIsUnambiguous` | crates/resurrect-libp2p/src/signed_peer_record.rs:197-208 | Equal signing inputs have equal payload types and equal payloads |
| `PeerCache.SqlitePeerCache.Store` | crates/resurrect-node/src/cache.rs:166-209 | One transaction: a batch with any out-of-range number changes nothing and names the first; otherwise each row is the last stored among those with the greatest sequence and block, and no other table has that property |
| `PeerCache.UpsertKeepsBest` | crates/resurrect-node/src/cache.rs:181-192 | The conditional upsert keeps each row the best of its history |
| `PeerCache.RecordedPerKey` | crates/resurrect-node/src/cache.rs:169-205 | A batch extends each key's history by its own rows for that key, in order |
| `PeerCache.TableIsDetermined` | crates/resurrect-node/src/cache.rs:181-192 | What was stored decides the table: no other table keeps the best of each history |
| `PeerCache.UpsertAgainstFreshness` | crates/resurrect-node/src/cache.rs:189-192 | The cached record is replaced exactly when it is not fresher, or shares sequence and block with the incoming one |
| `PeerCache.LogIndexIsIgnored` | crates/resurrect-node/src/cache.rs:189-192 | A concrete fresher record displaced by one of the same block with a lower log index |
| `PeerCache.BestIsFreshest` | crates/resurrect-node/src/cache.rs:181-192 | The cached record is a freshest one exactly when none of its sequence and block was stored with a higher log index |
| `PeerCache.StoredRowRoundTrip` | crates/resurrect-node/src/cache.rs:166-242 | Validate, store, reload, revalidate: an unexpired record yields the very candidate that was stored |
| `PeerCache.SqlitePeerCache.Prune` | crates/resurrect-node/src/cache.rs:244-255 | Keeps a row, unchanged, exactly when it expires after the given time, and counts what is left; a time out of range changes nothing |
| `PeerCache.SqlitePeerCache.LoadRows` | crates/resurrect-node/src/cache.rs:211-242 | Fails exactly when some row is out of protocol range, naming such a row's column |
| `PeerCache.SqlitePeerCache.Load` | crates/resurrect-node/src/cache.rs:86-123 | Returns the ranked sample of the rows that revalidate: each listed candidate comes from a live row of the namespace that its codec vouches for, and every such row's peer is listed with at least its sequence when the identities fit the cap |
| `PeerCache.RevalidationIsExact` | crates/resurrect-node/src/cache.rs:86-123 | A row revalidates if and only if it is live, of an accepted type, of 1 to 4096 bytes and decoded by its codec with at most 16 endpoints, and then to what it carries |
| `PeerCache.PruneKeepsLoads` | crates/resurrect-node/src/cache.rs:244-255 | On well-formed rows pruning at t changes no load at or after t, whatever order the query returns ties in |
| `PeerCache.FaithfulHistory` | crates/resurrect-node/src/cache.rs:56-76 | A table built from records that decode to their own identity has only such rows |
| `Renewal.RenewalInsideLifetime` | crates/resurrect-node/src/registry.rs:255-278 | The base is min(interval, max(ttl/2, 1)); a renewal delay is at least 1 exactly for a non-zero interval, below the TTL exactly for a TTL of 2 or more (or 1 with a zero interval), and within a day of the base |
| `Renewal.JitterWindowIsWidest` | crates/resurrect-node/src/registry.rs:269-278 | The jitter window is the widest that keeps the delay within a day of the base, positive and strictly inside the lifetime |
| `Renewal.RenewalCoversWindow` | crates/resurrect-node/src/registry.rs:269-278 | Every delay of the jitter window can be drawn |
| `Renewal.RegistryAnnouncer.Announce` | crates/resurrect-node/src/registry.rs:198-265 | Publishes exactly when every check, the signature and the submission succeed; takes one sequence number per signature; fails after publishing exactly when the clock cannot be read; after success the renewal is not due now and is due before the TTL has passed on the local clock |
| `Renewal.RenewalIsFresher` | crates/resurrect-node/src/registry.rs:241-242 | Until the counter wraps, a renewed record is fresher than all before it |
| `Supervisor.BackoffIsExponential` | crates/resurrect-node/src/supervisor.rs:239-242 | The delay is min(initial * 2^min(attempts, 20), maximum); neither the shift nor the saturating product shows |
| `Supervisor.BackoffGrows` | crates/resurrect-node/src/supervisor.rs:239-242 | More attempts never shorten the delay, and it never exceeds the maximum |
| `Supervisor.JitterStaysInRange` | crates/resurrect-node/src/supervisor.rs:244-252 | The jittered delay stays between half the base and the base despite saturation |
| `Supervisor.JitterCoversRange` | crates/resurrect-node/src/supervisor.rs:244-252 | Every delay of that range can be drawn, up to what a 64-bit draw reaches |
| `Supervisor.Run` | crates/resurrect-node/src/supervisor.rs:129-225 | The status, announcement and pause of each turn follow from the readings, the result of its cycle and the run of unconnected cycles before it; every cycle result is one that RunCycle may give for the adapters of that turn; it ends only at a shutdown during a wait or a lost status file |
| `Supervisor.LastViaIsLatest` | crates/resurrect-node/src/supervisor.rs:131-223 | The source a healthy status names is that of the last cycle that connected |
| `Supervisor.DelaysNeverDecrease` | crates/resurrect-node/src/supervisor.rs:131-223 | Over a run of unconnected cycles the delay before jitter never decreases and never exceeds the maximum |
| `Supervisor.DelaysDouble` | crates/resurrect-node/src/supervisor.rs:131-223 | After a connected turn the delays start over and double from cycle to cycle |
| `Supervisor.PauseAfterUnconnected` | crates/resurrect-node/src/supervisor.rs:213-221 | Every unconnected cycle is followed by a pause between half of that delay and all of it |

## Left out

- Bootstrap.DialCandidates: the connectivity reading after each dial is taken as instantaneous, so the bound covers dial time only.
- OnchainSite.World.Create: gas and every other reason for creation to fail are one arbitrary predicate per creation.
- OnchainSite.Request: contract code is taken as fixed between construction and the request.
- Host.EventLoop.NativeCandidates: the order of candidates and of their endpoints is whatever the hash map yields.
- PeerCache.SqlitePeerCache.Load: the query's answer is an input, any listing of the rows in the order the query asks for; SQL failures are not modelled.
- PeerCache.PruneKeepsLoads: assumes that each row's record decodes to the identity of its row, which holds for stored verified records (`FaithfulHistory`), and distinct scores.
- Supervisor.Run: turns are a finite script of the environment's decisions; a shutdown is noticed only during a wait, as in the source.
- The request half of the libp2p connector (timeouts, channel depth) and the host handle's waits: one await with a timer each.
- Real time in the host loop, the command channel's capacity and shutdown: only the order of handled inputs matters to the claims.
- BrowserScanner.ScanRegistry: the locale order of peer ids is a parameter, malformed JSON-RPC answers and error-text matching are the provider's verdict, and logs are well-formed hex text.
- The registry discovery adapter (checkpoint and counters around one scan) and telemetry.
- Signature checks, ENR, RLP, protobuf, multiaddr and peer-id parsing, keccak.
- JSON-RPC providers, log decoding in the Rust provider, transport, mDNS, identify and swarm construction.
- SQLite itself, files, identity storage, status JSON, command line, logging.
- Explorer user interface, peer probe, fallback endpoint list, descriptor JSON, namespace derivation and endpoint classification.
- The single-flight browser libp2p adapter.
- Liveness of real dials, mempool delay and recovery from reorganisations beyond detecting one.
