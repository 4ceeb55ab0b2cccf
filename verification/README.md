# Verification of Pyrsia

Pyrsia is a decentralised package network. Nodes replicate a blockchain of log
entries, keep a searchable table of those entries, verify each other's builds
and exchange requests over libp2p. This project models that core in Dafny and
proves what it promises.

- `Structures`, `Chain`, `Persistence`, `Wire`, `NodeSpec`, `BlockchainService`:
  blocks, the hash link, the chain in memory and on disk, the frames, and one
  node's operations.
- `Jobs`, `Replication`, `Progress`, `Gossip`, `WriterLog`, `Forks`, `EventLoop`: a writer
  with its publications and any number of other nodes as a step system over a
  network that loses, repeats and reorders.
- `TransparencyLog`, `LogService`, `Publisher`: the table, its queries, the
  duplicate-build guard, publication.
- `Verification`, `VerificationService`: the two-stage verification of builds.
- `P2p`, `P2pLoop`: the request/response correlator over nine pending maps.
- `Quorum`: the multisignature check.
- `Strings`, `Identifiers`, `Publication`, `Requests`: package identifiers, from
  a client's request over its build to its lookup.
- `Wrappers`, `Bags`: shared types and counting.

State that the program changes in place is a class whose methods are proved
against functions on values; the theorems are about those functions.
`dafny verify dfyconfig.toml` checks everything.

## What is assumed

- One node publishes. `TwoWritersPart` shows that two that append would part
  for good.
- The writer restarts only if its saves succeeded since the start.
  `RestartKeepsPrefixIff` gives the exact condition for any restart and
  `WriterRestartCanFork` a run that breaks it;
  `ForksAtNextAppend` what follows.
- Log ids are new when a publication starts (they are random UUIDs).
- The block encoding is a pair of functions, self-delimiting and ignoring what
  follows a value; JSON gives back the log it was made from. Replies hold
  fewer than 2^64 blocks.
- Keccak-256, SHA-256 and Ed25519 are functions about which nothing is assumed:
  `TipCommitment` produces a collision instead, and `NoConflictingCertificates`
  states unforgeability as a hypothesis on the signatures at hand.
- libp2p hands out unused ids, reports only on operations that are open, and a
  completion or an error report ends its operation (`P2p.Permitted`);
  `SecondReportPanics` shows the last part is needed. `start_providing` finds
  no store error, response channels are open, and who asks for a status waits
  for it.
- For the end-to-end results in `Requests` only: artifact rows come from builds
  (`PublishingKeepsOrigin` keeps this; `remove_artifact` writes nothing), a
  build gives one content for each id, the requester was up to date when the
  guard passed, no build of the package was under way or writes rows before
  this one, and no other package of the table shares ids. The exact conditions
  without these are `PublishedLookupIff`, `MavenRequestFoundIff` and
  `ManifestFoundIff`.
- Clock, nonce, UUID, key, operating-system and database outcomes are inputs.

## Where the code differs from its documentation

- The comment on the guard says a package can be added if its latest operation
  is *not* a removal (src/transparency_log/log.rs:313-316); the code passes
  exactly on a removal, and so does the model.
- The comment on `get_artifact` says "latest" (src/transparency_log/log.rs:287);
  the code takes the earliest row. `LookupIsLatestIff` says when they agree.
- The comment on `Chain` says order is guaranteed by hash and parent hash
  (src/blockchain/src/structures/chain.rs:29); nothing checks them on receipt.
  The order is proved from the ordinals of a single writer.

## What does not hold, and exactly when it does

- A load after failed saves is the chain only if every file is whole
  (`LoadAfterRun`, `LoadExact`, `GapCutsLoad`, `StaleFileComesBack`).
- The writer's table is not always the rows of its blocks: it inserts rows
  before it appends, and either may fail (`WriterTableIff`, `RowWithoutBlock`,
  `FailedBuildLeavesRow`).
- A published artifact is not always what a lookup returns
  (`PublishedLookupIff`, `OlderRowHidesNew`).
- The duplicate-build guard does not prevent duplicate builds: it looks at the
  requester's table at request time, and nobody looks again
  (`BothBuildsPass`, `StaleRequesterPasses`); `GuardCarriesOver` says when it
  does.
- Maven packages do not always have ids of their own: any string can be asked
  for by name, and one with '/' shares the ids of another (`MavenIdsEqualIff`,
  `SlashCollides`).
- Gossip alone does not bring a node up to date once it missed a block
  (`GrowsIff`, `MissedBlockStalls`, `UnsentBlockIsMissed`); if it missed none
  it does (`GossipSuffices`), and otherwise a restart and a pull do
  (`PullCatchesUp`).
- A node does not always hold the blocks its rows are of: an empty one takes
  rows (`EmptyNodeTakesRow`); one that holds blocks gains only rows of blocks
  it holds (`RowsAreOfHeldBlocks`).
- A receiver does not compare the ordinals on the wire and in the header
  (`ReceiveGoesByWire`, `MismatchedBlockStays`).
- Timestamps are whole seconds, so ties leave the guard and the node queries
  open (`GuardOutcomes`, `NodeAgreement`).
- Identifiers agree only for names without certain separators
  (`MavenAgreement`, `MappingAgreement`, `ManifestAgreement`, `BlobAgreement`).

## Model

| member | source | states |
|---|---|---|
| `Replication.ReplicationSafety` | src/blockchain_service/event.rs:194-276 | In every run with one writer, with frames lost, repeated or reordered, replicas pulling from each other, and saves, broadcasts or inserts failing, every node holds a prefix of the writer's chain; that chain is hash-linked and numbered from 0; every row at another node was written for one of its blocks, and every row at the writer was written by one of its own publications or for a block. |
| `Replication.StepKeepsInv` | src/blockchain_service/event.rs:180-192 | Each event handled to completion, each row the writer inserts itself, and each iteration of the start-up task keeps the system invariant and never shortens or rewrites the writer's chain. |
| `Replication.RunKeepsInv` | src/blockchain_service/event.rs:180-192 | The same for every sequence of steps. |
| `Replication.AgreementOverTime` | src/blockchain_service/service.rs:206-267 | Whatever one node held at an earlier moment and another holds at a later one, one chain is a prefix of the other. |
| `Replication.LogConvergence` | pyrsia_node/src/main.rs:483-503 | A node whose start-up task has ended, with no failed save or insert since it started, has the row of every block after genesis in its chain, through any interleaving of broadcasts with the task. |
| `Replication.RowWritten` | src/artifact_service/service.rs:214-226 | Handling a block of the chain writes exactly its row unless it is there, touches no other row and keeps every row traceable to a block. |
| `Replication.BlockAddedIs` | src/artifact_service/service.rs:214-226 | What handling any block does to the log: only a single readable payload counts, only its row is written, and only if it is new and the database takes it. |
| `Replication.ReceiveIs` | pyrsia_node/src/network/handlers.rs:135-145 | A frame the writer sent is handled by any node as the block it carries under that block's own position. |
| `Replication.PullReplyIsPrefix` | src/blockchain_service/service.rs:173-203 | What a peer holding a prefix sends for a pull, through request and reply encodings, is a prefix of the writer's chain and is empty or exactly as long as asked. |
| `Replication.RowsComeFrom` | src/transparency_log/log.rs:241-276 | Where any row of any node comes from, at every moment. |
| `WriterLog.WriterTableIff` | src/artifact_service/service.rs:134-174 | In every run the writer's table is exactly the rows of its blocks if and only if no publication is between its rows and its blocks: no build has written more rows than it appended blocks, and every authorization on the chain was inserted or came back in its own frame. |
| `WriterLog.WriterConvergence` | src/transparency_log/log.rs:194-251 | The writer's half of log convergence: every artifact block on its chain has its row, whatever failed; an authorization has it exactly if its insert succeeded or its frame came back. |
| `WriterLog.FailedBuildLeavesRow` | src/transparency_log/log.rs:253-263 | A build that stopped between its rows and its blocks leaves a row without a block in every later state of every run. |
| `WriterLog.RowWithoutBlock` | src/artifact_service/service.rs:148-165 | Such a state is reachable in two steps: the row is in, storing the artifact fails. |
| `WriterLog.StoppedStays` | src/artifact_service/service.rs:148-174 | A publication that failed is never taken up again. |
| `Jobs.RowIffAppended` | src/transparency_log/log.rs:241-263 | At every moment a log's row is in the writer's table, and its block on the chain, exactly as far as its publication got or as its frame came back. |
| `Forks.RestartKeepsPrefixIff` | src/blockchain/src/blockchain.rs:58-83 | A writer that reopens whatever directory it left behind does not start exactly if it meets a torn file before a missing one; otherwise it loads a non-empty prefix of its chain, and all nodes still hold prefixes of it if and only if none is longer. |
| `Forks.ForksAtNextAppend` | src/blockchain_service/service.rs:111-119 | A writer that starts again with less than some node holds forks with its very next append, unless it appends the log that node has there: different blocks at one position, neither chain a prefix of the other, each side taking the other's block for a duplicate. |
| `Forks.WriterRestartCanFork` | src/blockchain/src/blockchain.rs:58-83 | A reachable run in which the writer loses one save and a replica ends with more blocks than a restarted writer loads, and from which every other append forks. |
| `Progress.GrowsIff` | src/blockchain_service/service.rs:206-234 | A received frame extends a node that holds blocks if and only if it carries the node's next block, and then by exactly that block, even when its save fails. |
| `Progress.MissedBlockStalls` | src/blockchain_service/service.rs:220-232 | A node whose next block is in no frame keeps its chain through every run until it is itself restarted, whatever else is appended and delivered. |
| `Progress.UnsentBlockIsMissed` | src/blockchain_service/service.rs:111-145 | A block whose save or broadcast failed stays on the writer's chain but is never sent, so every node that was up to date misses it. |
| `Progress.PullCatchesUp` | src/blockchain_service/service.rs:249-267 | In a run: a node that pulls from a peer ends with exactly the chain the peer held when asked, whatever is appended and delivered before the reply, if the peer stays up and the saves succeed. |
| `Progress.JoinedNodeHasAll` | pyrsia_node/src/main.rs:483-503 | From the question to the last row: after such a pull, a node that is up with no failure holds every block its peer held when asked, and the row of each. |
| `Progress.ChainGrowsRun` | src/blockchain_service/service.rs:206-234 | A node's chain only grows until the node is restarted. |
| `Progress.AppendSendsNew` | src/blockchain_service/service.rs:111-130 | What the writer sends is never the frame of a block it already had. |
| `Gossip.AppendSends` | src/blockchain_service/service.rs:111-145 | An append puts the block of the log on the chain; it is sent, and reported as a success, exactly if it was saved and gossiped. |
| `Gossip.AppendIsBroadcast` | src/blockchain_service/service.rs:111-145 | In the system: after a saved and gossiped append its frame is in the network and the publication moves on. |
| `Gossip.BroadcastCatchesUp` | src/blockchain_service/event.rs:220-245 | In a run: a node that held the writer's whole chain when a block was appended and handles its frame at any later time then holds the block, even if its own save fails, and has its row if it is up without a failure. |
| `Gossip.GossipSuffices` | src/blockchain_service/service.rs:206-234 | A node for which no frame is missing comes to hold the writer's whole chain by gossip alone; with the stalling theorem this is exactly when gossip suffices. |
| `Gossip.ReceiveTable` | src/blockchain_service/event.rs:220-245 | What a frame does to a node's table: the row is handled exactly if the chain reports a success, which it does for a block the node has, for its next block if the save succeeds, and on an empty chain for any block. |
| `Gossip.RefusedLeavesTable` | src/blockchain_service/event.rs:228-236 | A later block, or one whose save fails, leaves the table alone. |
| `Gossip.RowsAreOfHeldBlocks` | src/blockchain_service/event.rs:220-245 | Over every run of a node that holds blocks, until it restarts: every row its table gains is of a block it holds, and no row is lost or changed. |
| `Gossip.EmptyNodeTakesRow` | src/blockchain_service/service.rs:213-220 | The exception: an empty node takes the row of any block it is sent and stays empty. |
| `Gossip.ReceiveGoesByWire` | pyrsia_node/src/network/handlers.rs:138-145 | The receiver goes by the ordinal on the wire, whatever the header says. |
| `Gossip.OtherFramesChangeNothing` | pyrsia_node/src/network/handlers.rs:135-166 | A frame that is not a broadcast changes neither chain nor table. |
| `Gossip.RestartForgets` | src/blockchain_service/service.rs:96-108 | A restarted node forgets its chain; directory and table stay. |
| `Gossip.AbortStops` | pyrsia_node/src/main.rs:490-492 | A pull that fails leaves chain and table alone and ends the start-up task. |
| `Gossip.ReplayFails` | pyrsia_node/src/main.rs:494-501 | A row that cannot be written ends the start-up task there. |
| `Gossip.StartUpCompletes` | pyrsia_node/src/main.rs:483-503 | From a completed pull the start-up task reaches its end, and then, if nothing failed, the node has the row of every block it holds. |
| `NodeSpec.CatchUp` | src/blockchain_service/service.rs:249-267 | From any prefix state, pulling 0..o from a node holding a prefix of the same chain ends with the longer of the two prefixes exactly if the saves needed succeed; otherwise it stops right after the first block whose save failed; earlier blocks never change. |
| `NodeSpec.AddFromPrefix` | src/blockchain_service/service.rs:249-267 | The exact length and result of a pull as a function of where the first save fails. |
| `NodeSpec.AddFromKeepsPrefix` | src/blockchain_service/service.rs:249-267 | Whatever fails, a pull from a prefix leaves a prefix at least as long as before. |
| `NodeSpec.AddBlockFromPrefix` | src/blockchain_service/service.rs:206-234 | From a prefix state, a block offered under its own position is appended if it is the next one, refused as lagging if it is later, ignored with success if it is earlier or if the chain is empty and it is not block 0. |
| `NodeSpec.AddPayloadExtends` | src/blockchain/src/blockchain.rs:93-124 | Appending a payload adds exactly one block that carries exactly that payload, keeps ordinals, hash link and the directory's mirror of the chain, and fails only if the save does. |
| `NodeSpec.AddPayloadOnTop` | src/blockchain/src/blockchain.rs:93-124 | With room, an append puts exactly one block with exactly that payload on any well-numbered chain. |
| `NodeSpec.MismatchedBlockStays` | src/blockchain_service/service.rs:220-232 | A block offered under the next ordinal whose header says another one is kept in memory all the same, with an error or even a success. |
| `NodeSpec.DuplicateIsIgnored` | src/blockchain_service/service.rs:225-229 | A block at a position the chain has changes nothing and is reported as a success. |
| `NodeSpec.TwoWritersPart` | src/blockchain/src/blockchain.rs:115-132 | Without the single-writer hypothesis replication fails for every chain: two nodes that append different payloads to it each take the other's block for a duplicate and report success. |
| `BlockchainService.BlockchainService.AddBlock` | src/blockchain_service/service.rs:206-234 | The method implements the specification that the prefix, catch-up and replication theorems are about. |
| `BlockchainService.BlockchainService.AddPayload` | src/blockchain/src/blockchain.rs:93-124 | Makes and commits the successor block, or reports an empty chain and changes nothing. |
| `BlockchainService.BlockchainService.InitPullFromOthers` | src/blockchain_service/service.rs:249-267 | Adds the pulled blocks in order, stops at the first error, returns the queried ordinal; a failed request changes nothing. |
| `BlockchainService.BlockchainService.PullBlocks` | src/blockchain_service/service.rs:237-243 | On a well-numbered chain, exactly the slice asked for, and nothing for an empty or out-of-range interval. |
| `BlockchainService.BlockchainService.SaveBlock` | src/blockchain/src/blockchain.rs:147-163 | The block is pushed before the save and stays in memory however the save ends. |
| `BlockchainService.BlockchainService.LoadBlocks` | src/blockchain/src/structures/chain.rs:116-136 | The loop over numbered files appends what the recursive load returns, or reports its error. |
| `BlockchainService.BlockchainService.InitFirst` | src/blockchain_service/service.rs:81-94 | Starts on what the directory holds, making the genesis block only if nothing was loaded. |
| `BlockchainService.BlockchainService.InitOther` | src/blockchain_service/service.rs:96-108 | Starts with an empty chain whatever the directory holds. |
| `EventLoop.BlockchainEventLoop.HandleBlockBroadcast` | src/blockchain_service/event.rs:220-245 | Adds the block; if the chain reports an error the table is left alone; otherwise, a duplicate included, handles its log; succeeds exactly if both parts do. |
| `EventLoop.BlockchainEventLoop.HandleBlockAdded` | src/artifact_service/service.rs:214-226 | Only a block with exactly one readable payload reaches the log, only if its id is new and the database takes it; fails exactly if the payload is unreadable or the database refuses a new row. |
| `EventLoop.BlockchainEventLoop.HandleQueryBlockOrdinal` | src/blockchain_service/event.rs:256-274 | The chain length minus one on a well-numbered chain, an error on an empty one. |
| `EventLoop.BlockchainEventLoop.ReplayPulled` | pyrsia_node/src/main.rs:494-501 | If it ends without an error the table is the replay of the pulled blocks' logs; otherwise it is the replay up to the block that could not be handled. |
| `Chain.GetBlockPosition` | src/blockchain/src/structures/chain.rs:54-71 | A position is found only where the stored ordinal equals it; on a well-numbered chain exactly for ordinals below the length. |
| `Chain.RetrieveBlocks` | src/blockchain/src/structures/chain.rs:73-83 | On a well-numbered chain the result is the slice start..end if start <= end < length, else empty. |
| `Structures.TipCommitment` | src/blockchain/src/structures/header.rs:76-137 | Two hash-linked chains with one tip hash agree on every header and every transaction list, or exhibit a hash collision at equal distance from their tips. |
| `Structures.SuccessorKeepsLink` | src/blockchain/src/blockchain.rs:108-120 | Appending the writer's next block keeps the whole chain hash-linked. |
| `Structures.NewBlockIsStamped` | src/blockchain/src/structures/block.rs:46-70 | A new block carries its maker, time, nonce and signature, and exactly the submitted transaction. |
| `Structures.LinkedOrdinals` | src/blockchain/src/blockchain.rs:115-120 | A hash-linked chain is numbered from 0 without gaps. |
| `Structures.FetchPayload` | src/blockchain/src/structures/block.rs:90-98 | The payloads of the block's transactions, all of them, in order. |
| `Persistence.LoadAfterRun` | src/blockchain/src/structures/chain.rs:85-136 | For every run from an empty directory and any mix of failing opens, writes and syncs: a load gives a prefix of the chain in memory or stops at a torn file, never fails if no file is torn, and gives the whole chain if and only if every block's file is whole. |
| `Persistence.LoadExact` | src/blockchain/src/structures/chain.rs:116-136 | A load returns exactly these blocks if and only if each has its whole file and the next number has none. |
| `Persistence.LoadFailsIff` | src/blockchain/src/structures/chain.rs:116-136 | A load fails if and only if it meets a torn file before a missing one. |
| `Persistence.RestartRestores` | src/blockchain/src/blockchain.rs:58-83 | Reopening a fully saved chain gives it back with the directory unchanged and no new genesis block, whatever key, clock and disk do. |
| `Persistence.OpenEmpty` | src/blockchain/src/blockchain.rs:66-77 | The first start makes the genesis block and saves it. |
| `Persistence.SaveInPlace` | src/blockchain/src/structures/chain.rs:85-112 | A save in its place never reports an invalid length, fails only if the operating system does, and leaves in the block's file, and in no other, exactly what the system let through. |
| `Persistence.SaveOutOfPlace` | src/blockchain/src/structures/chain.rs:85-98 | A block that does not belong at the end stays in memory: with a later ordinal it is an error, with an earlier one the block already there is saved again and a success reported. |
| `Persistence.OpenWithoutFirst` | src/blockchain/src/blockchain.rs:58-83 | Without a first file, whatever else is there, a start makes the genesis block and fails if its save does. |
| `Persistence.GapCutsLoad` | src/blockchain/src/structures/chain.rs:119-133 | Concrete run: one failed open makes every later block disappear on the next load. |
| `Persistence.StaleFileComesBack` | src/blockchain/src/structures/chain.rs:116-136 | Concrete run: after such a gap and a restart, the next load can return a chain no node ever held. |
| `Wire.BroadcastRoundTrip` | src/blockchain_service/service.rs:122-130 | For every block, decoding its broadcast frame gives the block under its own header ordinal. |
| `Wire.PullRoundTrip` | src/blockchain_service/service.rs:189-192 | For all ordinals, decoding the pull frame gives back both ends. |
| `Wire.OrdinalRoundTrip` | src/blockchain_service/service.rs:33-34 | Every u128 survives 16 little-endian bytes whatever follows, and every 16 bytes are the encoding of what they decode to. |
| `Wire.WireOrdinalIsIndependent` | pyrsia_node/src/network/handlers.rs:138-141 | The receiver does not tie the wire ordinal to the header: any other ordinal in front of the block is accepted as given. |
| `Wire.CommandOf` | src/blockchain_service/service.rs:48-60 | The inverse of the command byte, and nothing else is a command. |
| `Wire.CommandBytes` | src/blockchain_service/service.rs:39-60 | The bytes 1 to 4 are the four commands, and no other byte is one. |
| `Wire.DecodeOthers` | pyrsia_node/src/network/handlers.rs:135-166 | What the decoder does with everything that is not a well-formed frame. |
| `Wire.FrameLayout` | src/blockchain_service/service.rs:122-130 | One command byte, ordinals of sixteen bytes, then the block. |
| `Wire.LowestByteFirst` | src/blockchain_service/service.rs:33-34 | Numbers are written with their lowest byte first. |
| `Wire.ReplyLayout` | pyrsia_node/src/network/handlers.rs:147-154 | The number of blocks in eight bytes, then the blocks. |
| `Wire.ShortReplyIsUnreadable` | src/blockchain_service/service.rs:194-202 | A reply that is cut off is not readable. |
| `Wire.BuildBroadcastFrame` | src/blockchain_service/service.rs:122-130 | The buffer built byte by byte decodes to the block under its own ordinal. |
| `Wire.BlocksReplyRoundTrip` | pyrsia_node/src/network/handlers.rs:147-154 | Every list of blocks survives the reply encoding. |
| `Verification.SenderConservation` | src/verification_service/service.rs:116-253 | Over every run, the senders submitted are the senders pending, verifying, answered and dropped, counted with multiplicity. |
| `Verification.OnePlace` | src/verification_service/service.rs:116-253 | A sender submitted once is in exactly one of the four and is answered at most once. |
| `Verification.DropsIff` | src/verification_service/service.rs:100-179 | An event drops senders if and only if it is a malformed submission, or completes a batch whose build does not start or starts under the id of a running one; and exactly which senders. |
| `Verification.DroppedNothingIff` | src/verification_service/service.rs:100-253 | A run drops nothing if and only if none of its events is such an event. |
| `Verification.SmoothDropsNothing` | src/verification_service/service.rs:116-179 | In particular nothing is dropped when builds start under ids that name no running build. |
| `Verification.StepConserves` | src/verification_service/service.rs:100-253 | No single event creates, loses or doubles a sender, malformed and failing ones included. |
| `Verification.BatchCounting` | src/verification_service/service.rs:127-178 | If all logs of a package say n artifacts and builds start, then after k submissions k div n builds were started, each with the next n submissions in order, and the last k mod n are pending, whatever else happens in between. |
| `Verification.GroupedThroughout` | src/verification_service/service.rs:127-178 | At every moment of such a run the batches and the pending list together are the submissions in order. |
| `Verification.VerifyingAreBatches` | src/verification_service/service.rs:158-178 | Every list being verified is one batch that was sent to a build. |
| `Verification.BuildEndAnswers` | src/verification_service/service.rs:181-253 | When a build ends, everybody who waits for it hears, in order and once: success exactly if the first built artifact with its id has its hash, not found exactly if no artifact has the id, else both hashes; after a failed build, the build's error. The build is forgotten, nothing else changes, and the end of an unknown build does nothing. |
| `Verification.RunAnswers` | src/verification_service/service.rs:100-253 | Over every run: each of these senders had submitted a log, and what it hears is about that log's own artifact id and hash. |
| `Verification.SubmitReplies` | src/verification_service/service.rs:100-179 | What a submission returns in each case, and that one which cannot be verified changes nothing. |
| `Verification.VerifiedIff` | src/verification_service/service.rs:206-245 | The answer for one artifact is success if and only if the first built artifact with its id has its hash. |
| `Verification.AnswersReachAll` | src/verification_service/service.rs:195-253 | A build result answers every sender waiting for it once, in order. |
| `Verification.FailuresReachAll` | src/verification_service/service.rs:181-193 | A build failure answers every sender waiting for it once, in order. |
| `Verification.FindArtifact` | src/verification_service/service.rs:208-212 | The first artifact with the id, or none exactly if there is none. |
| `VerificationService.VerificationService.VerifyTransaction` | src/verification_service/service.rs:100-114 | The method is the submission step of the state machine. |
| `VerificationService.VerificationService.VerifyAddArtifact` | src/verification_service/service.rs:116-179 | Collects, and at the expected count (compared as u32) removes the list and hands it to the build, dropping the senders if the build does not start. |
| `VerificationService.VerificationService.HandleBuildFailed` | src/verification_service/service.rs:181-193 | The loop sends the failure step's answers and forgets the build. |
| `VerificationService.VerificationService.HandleBuildResult` | src/verification_service/service.rs:195-253 | The loop sends the result step's answers and forgets the build. |
| `P2p.ReplyConservation` | src/network/event_loop.rs:656-922 | Over every interleaving of commands and events that respects the libp2p contract, how often a sender was submitted is how often it is pending, answered or dropped; one submitted once is therefore in exactly one of these. |
| `P2p.NoExpectFails` | src/network/event_loop.rs:234-326 | In every such run no `expect` on a pending map fails. |
| `P2p.DropsOnlyDuplicates` | src/network/event_loop.rs:662-725 | A sender is dropped if and only if it comes with a second dial or probe to a pending peer or a repeated bootstrap, and then nothing else changes. |
| `P2p.CompletionAnswersIssuer` | src/network/event_loop.rs:330-591 | A completing event sends exactly one reply, with the event's content, to the sender that asked for that operation. |
| `P2p.DialAnswered` | src/network/event_loop.rs:608-636 | Over every legal run, a report on a peer answers exactly the sender that waits for it, success for a connection and failure for an error, and ends the wait for that peer alone; an inbound connection and an error without a peer answer nobody. |
| `P2p.DialsTracked` | src/network/event_loop.rs:661-714 | Who waits for a peer is the first to dial or probe it since the last report on it. |
| `P2p.CommandReplies` | src/network/event_loop.rs:656-922 | What a command sends at once: a refused dial or bootstrap a failure, an immediate command its reply, any other nothing. |
| `P2p.CommandPanicsIff` | src/network/event_loop.rs:656-922 | The commands that panic, exactly. |
| `P2p.BootstrappedIff` | src/network/event_loop.rs:674-687 | The flag that makes a bootstrap a repeated one holds exactly if one was started before in the run. |
| `P2p.ProviderAggregation` | src/network/event_loop.rs:255-289 | When a provider query ends, its caller gets exactly the union of the provider sets reported for its own query, however many queries run. |
| `P2p.SecondReportPanics` | src/network/event_loop.rs:234-326 | The contract is needed: after an operation completed, any further report on it fails an `expect`. |
| `P2p.StepConserves` | src/network/event_loop.rs:656-922 | No single command or event creates, loses or doubles a sender. |
| `P2p.HeldIff` | src/network/event_loop.rs:83-90 | A sender is counted as pending exactly when it waits for a peer or for an operation in one of the nine maps. |
| `P2p.RunCorrelated` | src/network/event_loop.rs:656-922 | At every moment everything libp2p may still report is pending for the sender that asked for it. |
| `P2p.CommandKeeps` | src/network/event_loop.rs:656-922 | A command keeps that correlation. |
| `P2p.EventKeeps` | src/network/event_loop.rs:234-326 | An event keeps that correlation. |
| `P2p.RunAggregated` | src/network/event_loop.rs:255-266 | At every moment each pending provider query holds the union reported for it so far. |
| `P2pLoop.PyrsiaEventLoop.HandleCommand` | src/network/event_loop.rs:656-922 | The command handler over the nine maps is the specified step, replies included; it panics exactly when providing does not start, a response channel is closed, or nobody waits for a status. |
| `P2pLoop.PyrsiaEventLoop.HandleKademliaEvent` | src/network/event_loop.rs:234-326 | The Kademlia handler is the specified step; it panics exactly on an id that is not pending. |
| `P2pLoop.PyrsiaEventLoop.HandleRequestResponseEvent` | src/network/event_loop.rs:330-591 | The five request-response handlers are the specified step. |
| `P2pLoop.PyrsiaEventLoop.HandleSwarmEvent` | src/network/event_loop.rs:608-636 | Connection events answer the pending dial of their peer, if any, and nothing else. |
| `TransparencyLog.GuardOutcomes` | src/transparency_log/log.rs:317-335 | On every table and every order of ties, the guard may pass if and only if the package has no artifact row or a removal attains the latest timestamp, and may refuse if and only if an addition attains it. |
| `TransparencyLog.GuardIsLatestOperation` | src/transparency_log/log.rs:317-335 | Without a tie between addition and removal the guard has one verdict, that of the latest operation. |
| `TransparencyLog.GuardFollowsLatest` | src/transparency_log/log.rs:497-557 | Given the row the first query chose, the guard refuses exactly if it adds the package, through the consistency check. |
| `TransparencyLog.GuardRefusals` | src/transparency_log/log.rs:317-335 | Which refusal it is: the inconsistency with both numbers if rows are missing, else that the package exists. |
| `TransparencyLog.NodeAgreement` | src/transparency_log/log.rs:349-373 | The existence check and the list of nodes agree on every order of ties if and only if no addition and removal of the node tie at its latest timestamp. |
| `TransparencyLog.AgreementWithoutTies` | src/transparency_log/log.rs:580-599 | Without such a tie the check refuses a node exactly if it is listed. |
| `LogService.TransparencyLogService.ReadTransparencyLog` | src/transparency_log/log.rs:453-494 | An earliest matching row if it is an addition, an error naming it if it is a removal, not found exactly if nothing matches. |
| `TransparencyLog.LookupIsLatestIff` | src/transparency_log/log.rs:476-492 | What a lookup returns comes from a latest row, as documented, if and only if all rows of the artifact have one timestamp. |
| `TransparencyLog.ReplayConverges` | src/transparency_log/log.rs:267-276 | Replays of the same set of logs in any order and with any repetition give the same table. |
| `TransparencyLog.ReplayContents` | src/transparency_log/log.rs:267-276 | A replay gives one row per id, keeps what was there and loses no log. |
| `LogService.PublicationProgress` | src/artifact_service/service.rs:134-170 | For a fresh package with n artifacts, every read while j rows are written reports the inconsistency (n, j) for 0 < j < n and returns exactly the n rows at j = n, and the guard passes if and only if j = 0. |
| `LogService.NewArtifactLogSays` | src/transparency_log/log.rs:157-178 | What every field of a new log says. |
| `LogService.AddedNodeIsListed` | src/transparency_log/log.rs:194-222 | A node added later than anything said about it before is listed and refused from then on; no other node and no package is touched. |
| `LogService.TransparencyLogService.ReadLastTransparencyLog` | src/transparency_log/log.rs:497-557 | Only results the specification allows; the per-row check of the second query is proved unreachable. |
| `LogService.TransparencyLogService.ReadOthers` | src/transparency_log/log.rs:519-541 | All other additions of the package, latest first, up to the expected number. |
| `LogService.TransparencyLogService.VerifyPackageCanBeAdded` | src/transparency_log/log.rs:317-335 | Passes only on no row or a latest removal, refuses only on a latest addition. |
| `LogService.TransparencyLogService.VerifyNodeDoesNotExist` | src/transparency_log/log.rs:349-373 | Refuses, in the absence of ties, exactly the nodes every listing holds. |
| `LogService.TransparencyLogService.FindAddedNodes` | src/transparency_log/log.rs:580-599 | One row per node attaining its latest timestamp, additions only, no node twice. |
| `LogService.TransparencyLogService.WriteTransparencyLog` | src/transparency_log/log.rs:418-451 | Inserts unless the id is known or the database fails, and otherwise changes nothing. |
| `LogService.TransparencyLogService.WriteIfNotExists` | src/transparency_log/log.rs:267-276 | Leaves an existing row alone and reports success. |
| `LogService.TransparencyLogService.GetAuthorizedNodes` | src/transparency_log/log.rs:338-345 | The listed nodes with a readable peer id; each was added by one of its latest rows. |
| `LogService.PeersInOrder` | src/transparency_log/log.rs:338-345 | The peers are in the order of the list. |
| `Publisher.ArtifactService.RequestBuild` | src/artifact_service/service.rs:63-120 | Past the guard, and only past it, the build goes to this node if it is among the authorized nodes of the table, else to the last of them, and may still be turned down there. |
| `Publisher.ArtifactService.HandleBuildResult` | src/artifact_service/service.rs:122-176 | All rows first, then one block for each, stopping at the first failure of either. With new ids and room on the chain it succeeds exactly if every row, artifact, save and broadcast does; the blocks appended are those of the first rows, in order; a failure among them is that of the last. The whole operation is a run of one publication of the replicated system, stopped exactly if it failed. |
| `Publisher.ArtifactService.BroadcastArtifacts` | src/transparency_log/log.rs:253-263 | Blocks for the rows in order up to the first append or broadcast that fails, and all of them, with success, exactly if none does; as append steps of the system. |
| `Publisher.ArtifactService.AddAuthorizedNode` | src/transparency_log/log.rs:194-222 | Refuses a node that exists and changes nothing; otherwise the block first and the row after it, succeeding exactly if save, broadcast and insert do; as steps of the system. |
| `Quorum.QuorumIntersection` | src/blockchain/src/identities/authority_verifier.rs:60-72 | Any two complete multisignatures on one verifier share more than a third of its authorities. |
| `Quorum.NoConflictingCertificates` | src/blockchain/src/identities/authority_verifier.rs:64-72 | While at most a third of the authorities sign both of two messages, they are never both complete. |
| `Quorum.CompleteIff` | src/blockchain/src/identities/authority_verifier.rs:45-72 | Complete means exactly: more than two thirds in number, all from known authorities, all valid. |
| `Quorum.ThresholdIsLeast` | src/blockchain/src/identities/authority_verifier.rs:60-62 | For every authority set the threshold cannot be lowered by one: two smaller signer sets sharing at most a third exist. |
| `Quorum.AuthorityVerifier.Threshold` | src/blockchain/src/identities/authority_verifier.rs:60-62 | The least number above two thirds of the authorities. |
| `Quorum.AuthorityVerifier.Save` | src/blockchain/src/identities/authority_verifier.rs:35-42 | Records or replaces one authority's key. |
| `Identifiers.MavenAgreement` | src/build_service/service.rs:243-250 | For every path of at least four pieces and every URL ending in its file name, the published id is the requested id if and only if no directory holds a ':'. |
| `Identifiers.MappingAgreement` | src/build_service/mapping/service.rs:61-70 | The mapping is fetched from the requested directory if and only if no directory holds a ':' and no group directory holds a '.'. |
| `Identifiers.ManifestAgreement` | src/build_service/service.rs:217-227 | The two ids published for a manifest are those requested by tag and by digest if and only if name and tag hold no '@', the tag no ':', and no '/' is in the tag alone. |
| `Identifiers.BlobAgreement` | src/build_service/service.rs:228-241 | The id published for a blob file is the one requested if and only if the image name can be read back from the package id. |
| `Identifiers.ImageNameIff` | src/build_service/service.rs:315-324 | The image name read off a manifest id is the qualified name under exactly that condition, for names and tags of any content. |
| `Identifiers.DigestId` | src/docker/v2/handlers/manifests.rs:95-106 | A manifest requested by digest is looked up under the qualified name and the digest. |
| `Identifiers.BlobIdParts` | src/docker/v2/handlers/blobs.rs:54-61 | So is a blob. |
| `Identifiers.MavenIdsEqualIff` | src/build_service/service.rs:243-250 | Two packages publish one id for two files if and only if the files have one name and the packages differ at most in ':' against '/'. |
| `Identifiers.NoCollision` | src/build_service/service.rs:244-244 | Among packages without '/' no two do. |
| `Identifiers.SlashCollides` | src/build_service/service.rs:244-244 | The input on which two packages do: the node API accepts a package with '/'. |
| `Identifiers.PathRoundTrip` | src/java/maven2/handlers/maven_artifacts.rs:87-113 | Every list of pieces without '/' is read back from its path: group joined by dots, artifact, version, file. |
| `Identifiers.ParseArtifactFromFullPath` | src/java/maven2/handlers/maven_artifacts.rs:87-113 | The popping parser takes the last three pieces in the right order and rejects fewer than four. |
| `Identifiers.ProcessArtifactUrls` | src/build_service/service.rs:197-278 | The loop collects the ids of every URL in order, each with its download's hash, and fails on the first failed download. |
| `Identifiers.PublishedInOrder` | src/build_service/service.rs:197-278 | The artifacts of two lists of URLs are those of the first and then those of the second, and one failed download spoils all. |
| `Identifiers.PublishedAlone` | src/build_service/service.rs:207-262 | One download is published under the ids of its URL, each with its hash. |
| `Identifiers.ManifestByDigest` | src/build_service/service.rs:218-220 | A manifest of a package requested by digest is published under that request alone. |
| `Identifiers.BareImageName` | src/build_service/service.rs:315-324 | A package without tag or digest is its own image. |
| `Identifiers.ShortPathIsRefused` | src/java/maven2/handlers/maven_artifacts.rs:94-97 | A path with fewer than four pieces is refused. |
| `Identifiers.MappingNeedsColons` | src/build_service/mapping/service.rs:61-65 | A package with fewer than two ':' has no mapping directory. |
| `Publication.PublishedLookupIff` | src/transparency_log/log.rs:453-494 | After any publication on any table, the lookup returns the published hash whatever ties do, if and only if no row under the artifact id, old or of the same build, is a removal or has another hash without a good row before it. |
| `Publication.BothBuildsPass` | src/artifact_service/service.rs:102-105 | Two builds that both passed the guard: no lookup returns the content of the second if it differs. |
| `Publication.OlderRowHidesNew` | src/transparency_log/log.rs:476-481 | The input on which it fails: one older row with another hash. |
| `Publication.MavenRowsCollide` | src/build_service/service.rs:243-250 | All rows under a requested Maven artifact id are additions of packages that share ids with the requested one, and of that package itself unless their package holds a '/'. |
| `Publication.TagRowsAreOwn` | src/build_service/service.rs:217-241 | All rows under the id of a Docker package requested by tag belong to that package. |
| `Publication.GuardMeansFresh` | src/transparency_log/log.rs:317-335 | While nothing is removed the guard may pass exactly for packages without any row. |
| `Publication.PublishingKeepsOrigin` | src/artifact_service/service.rs:134-170 | Publishing a build keeps, at every moment, that every artifact row comes from a build of its package. |
| `Publication.DownloadsAreBuilt` | src/build_service/service.rs:197-278 | Every artifact the URL loop collects carries an id its build publishes. |
| `Publication.MavenRequestFoundIff` | src/artifact_service/service.rs:249-257 | On every table the requested build is published to, every lookup of the requested artifact returns the hash of its download if and only if no row preempts it; none does if no package sharing its ids has a row and the build gives one content for each id. |
| `Publication.ManifestFoundIff` | src/artifact_service/service.rs:249-257 | The same for a Docker manifest, by tag and by digest. |
| `Requests.GuardAgrees` | src/artifact_service/service.rs:102-105 | In every reachable state, at a node that is up to date without a failure, while no build of the package is between its rows and its blocks, the guard may answer exactly what it may answer at the writer. |
| `Requests.LookupAgrees` | src/artifact_service/service.rs:249-257 | Under the same condition on the artifact id, such a node's lookup finds exactly what the writer's does. |
| `Requests.WriterArtifactRows` | src/transparency_log/log.rs:241-251 | In every reachable state the artifact rows at the writer are exactly those its builds wrote. |
| `Requests.ReplicaRowAtWriter` | src/artifact_service/service.rs:214-226 | An artifact row at another node is always at the writer too. |
| `Requests.GuardCarriesOver` | src/artifact_service/service.rs:102-105 | If the guard passed at such a node, and no build of the package writes a row before this one is published, it is published to a table without any row of the package. |
| `Requests.StaysFresh` | src/artifact_service/service.rs:122-176 | A package without rows at the writer stays so through every run in which no build of it writes a row. |
| `Requests.StaleRequesterPasses` | src/artifact_service/service.rs:102-105 | A reachable state in which the writer has a row of the package and the guard passes at every other node. |
| `Requests.MavenRequestIsFound` | src/artifact_service/service.rs:63-176 | End to end, when the guard carries over and no other package of the table shares ids: every lookup after the publication returns the row with the hash of the download. |
| `Requests.ManifestIsFound` | src/artifact_service/service.rs:63-176 | End to end for a Docker manifest: every lookup by tag returns the row with the hash of the download, and every one by digest if the old rows under the digest honour it. |

## Left out

- Multi-writer consensus: the code has none.
- An ordinal past `u128::MAX` is an error in the model; the source's addition overflows.
- A save onto a longer stale file keeps that file's tail in the source; trailing bytes are ignored on loading, so the model replaces the file.
- Database failures other than a failed insert; in `write_if_not_exists` the source ignores them and writes nothing.
- `Chain`, `Blockchain` and `BlockchainService` nest by value in the source and are one object in the model.
- `P2pLoop.PyrsiaEventLoop.HandleRequestResponseEvent`: the five handlers, which differ only in their map, are one method; inbound requests are only forwarded and are not modelled.
- `Listen`, `ListPeers`, `VerifyBuild` and `BroadcastBlock` are one command with its reply as an input, because they answer before they return; the channel for inbound events is taken to be open.
- Liveness of the p2p loop: a failed provider query is ignored by the source, so its caller waits for ever.
- libp2p itself, transports, AutoNAT, gossip and the length-prefixed stream codecs.
- `PushToPeer`, which the source leaves unwritten; the model only records that it panics.
- `remove_artifact` and `remove_authorized_node`, which write nothing.
- `get_idle_peer` and peer metrics.
- Pipeline and mapping HTTP clients, HTTP routes, command line, configuration, output and logging.
- Artifact storage, provider lookup and the hash check of a downloaded artifact.
- Full bincode of nested blocks and full JSON of a log: only command bytes, ordinals and lengths are concrete.
