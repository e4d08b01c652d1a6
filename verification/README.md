# Moltbunker: a verified model of its stateful cores

Moltbunker runs containers on a peer-to-peer fleet of daemons that pay each other
through an on-chain escrow. This project models, in Dafny, the parts of it whose
correctness is a matter of state and order rather than of plumbing, and proves what
they keep over every input and every run.

**Escrow and deployment lifecycle.** `Escrow` is the reservation contract and the
payment service in front of it; `Fleet` is a step system of any number of daemons,
each with volatile memory, a disk that lags behind, a reservation cache and
operations in flight that are cut wherever the daemon lets go of its lock, calls out
or may crash. `FleetSafety` proves what every run keeps, `Recovery` and
`RecoveryRuns` what a restart repairs and which errors make flags untrue,
`Unselected` what becomes of reservations that stay live, `Lifecycle` what each
operation is for, whatever happens between its pieces, `EscrowErrors` how the
error of a call is classified, `Activation` how the providers and regions are chosen.
`ContainerManager` is the daemon's object: its methods update their fields, make
their calls in order, and are each shown to be a run of the fleet's step system.

**Exec pipeline.** `Frames` (length-prefixed frames over a byte stream), `Relay` (the
pump from the agent and the bridge to it), `Nonces` (the counter and direction bit of
the session cipher).

**Cloning.** `StateTransfer` (packaging, chunking and reassembly), `CloneManager`
(executors, slots, history, statistics, lineage), `NodeSelector` (regions, scores and
the pick).

**Admission.** `Admission` (count under one lock, insert under another), refined by
`CrawlScheduler` and `AgentRuntime`; `ExecSessions` (challenges and session caps);
`RateLimit` (the API's token limiter and the crawler's domain limiter).

**Catalog.** `Catalog` (validation and the store's operations), `CatalogStore` (the
object, its file, restarts, the public view).

## What the model assumes

- SHA-256, gzip, AES-GCM and JSON are function parameters; only inverse laws and a
  non-empty hexadecimal hash are assumed of them, and where a row says so, that the
  hash is injective or that no other key opens what one key sealed.
- Clocks, random draws and identifiers are parameters. Deployment, clone, job and
  agent identifiers are fresh when they are handed out (they are random).
- The payment service is an environment: it may accept a call before or after it is
  mined, revert it, lose the reply with or without effect, or find no reservation, as
  the chain's state allows. It accepts a call only if the contract would execute it as
  the chain stands (gas is estimated first). Payment is configured; a daemon without it
  makes no calls.
- The error of a call may say anything, except that decoded revert data never reports
  an ending that has not happened. What the daemon makes of it is the classifier's
  doing, as in the code.
- A deployment request is delivered with its true sender as originator.
- A disk write of the daemon's state lands entry by entry, or as a whole, or not at all.

## Where the code differs from what it promises

- `FinalizeJob` returns once the transaction is accepted, not mined, so the flag leads
  the chain while it is unmined (`UnminedTransactionStrandsTheEscrow`), and only then if
  no error misleads a sweep (`FlagNeverLeadsChain`).
- Without decodable revert data the error classifier goes by the message, and takes a
  reservation that is still live for an ended one (`MisleadingErrorStrandsTheEscrow`);
  `FlagsAreTrueIff` says exactly which errors have to be kept out.
- The daemon activates the escrow on the first successful ack, when the third provider
  is always the zero address, which the contract refuses (`ActivationIsNeverAccepted`);
  a reservation whose providers nobody else selects is never completed, and its
  deployment stays unflagged until an error matches (`UnselectedIsNeverCompleted`).
- `writeAgentStdinFrame` accepts a payload of exactly 1 MiB that the reader rejects
  (`ReadsStdinIffSmall`).
- Two writers interleave the pieces of their frames. A length that follows another
  writer's length is always misread, as no frame has type zero (`TornFramesAreMisread`); in general the frames are
  read back exactly if the bytes happen to be the encoding of a shuffle
  (`InterleavedPiecesReadIff`), which a tear after the type can bring about
  (`TearAfterTypeReadIff`, `TornCanReadBack`).
- A cancelled clone whose executor goes on is listed twice (`ListedTwiceIff`) or counted
  neither as completed nor as failed (`StatsAddUpIff`, `CancelledUncounted`), and what it
  makes is in the lineage once but in the history twice (`LineageFollowsHistoryIff`).
- A catalog update validates an identifier it then discards (`UnusedIdIsRefused`); a
  failed save leaves the change in memory (`FailedWriteIsNotDurable`, `DurableIff`); a public preset
  may name a tier that is not shown (`TierShownIffEnabled`).
- The comment on the clone region loop speaks of a region different from the source's;
  the loop never looks at the source's region (`DetermineRegion`).

## Model

| member | source | states |
|---|---|---|
| `FleetSafety.StepKeepsInv` | internal/daemon/container_manager.go:1032-1316 | every step of every daemon, including crash, load, sweep and delivery, keeps the invariant that ties flags, caches, copies and operations in flight to the chain or to an error that misled a sweep |
| `FleetSafety.RunKeepsInv` | internal/daemon/container_manager.go:425-1865 | the invariant holds after every run |
| `FleetSafety.FlagFollowsAcceptance` | internal/daemon/container_manager.go:1102-1114 | in every run with crashes anywhere, a flagged copy in memory, in a pending save, on disk or in transit has a reservation that is terminal or whose ending was accepted, unless an error misled the sweep of that deployment |
| `FleetSafety.FlagNeverLeadsChain` | internal/daemon/container_manager.go:1629-1742 | when every error that reaches a sweep decodes or has none of the phrases, a flag anywhere means the reservation is terminal on chain, except exactly while its accepted ending is unmined |
| `FleetSafety.CandidRunsMisleadNobody` | internal/daemon/container_manager.go:1699-1712 | with such errors no run ever misleads a sweep |
| `FleetSafety.OnlyTheOriginatorCalls` | internal/daemon/container_manager.go:1048-1114 | every select, release, finalize and refund call of every run is made by the node that deployed the deployment |
| `FleetSafety.CallerOwns` | internal/daemon/container_manager.go:1198-1231 | each single step that calls the escrow is taken by the deployment's originator |
| `FleetSafety.BookIsHistory` | internal/daemon/container_manager.go:511 | who deployed a deployment, and its reservation, never change in a run |
| `FleetSafety.CopiesAgree` | internal/daemon/replication.go:149-245 | every copy anywhere names the deploying node and the reservation it was given |
| `Recovery.SweepRecovers` | internal/daemon/container_manager.go:1641-1713 | after one sweep whose answers conclude, under every interleaving, each stopped or failed own deployment with a reservation that is still deployed is flagged, settled unless an error misled its sweep, and a further sweep starts nothing for it |
| `Recovery.CrashRecovery` | internal/daemon/container_manager.go:1541-1713 | from any reachable fleet, a crash at any point, load and status lookup: every persisted own deployment with a parseable reservation whose container is over, by the persisted status and what the runtime reports, is flagged and settled or excused by a misleading error after the sweep, and not swept again |
| `Recovery.LoadsTheDisk` | internal/daemon/state.go:100-126 | loading puts exactly the persisted deployments into memory |
| `Recovery.BootKeepsLoaded` | internal/daemon/container_manager.go:1541-1596 | the status lookup changes nothing of what was loaded but statuses |
| `Recovery.BootFollowsReports` | internal/daemon/container_manager.go:1554-1588 | a deployment ends with the reported status; one whose container is gone is stopped if it was running or pending and unchanged otherwise, as is one that was not looked up |
| `Recovery.DueIff` | internal/daemon/container_manager.go:1541-1661 | right before the sweep a deployment is due exactly if its persisted record is this node's with a parseable reservation and the persisted status and the report say it is over |
| `Recovery.SweptIff` | internal/daemon/container_manager.go:1641-1661 | the sweep takes exactly this node's own, unflagged, stopped or failed deployments |
| `Recovery.FlaggedIsNotSwept` | internal/daemon/container_manager.go:1647-1649 | a flagged deployment gets no sweep goroutine |
| `RecoveryRuns.SweepFinishesInAnyOrder` | internal/daemon/container_manager.go:1684-1713 | for every order of the goroutines there is a run without transient errors that drains them all |
| `RecoveryRuns.SweepCanFinish` | internal/daemon/container_manager.go:1629-1713 | from every fleet that keeps the invariant, and for every order of the goroutines, a sweep without transient errors exists if the reservations it finalizes are active or have ended |
| `RecoveryRuns.CrashRecoveryOnChain` | internal/daemon/container_manager.go:1598-1713 | with errors that decode or have none of the phrases, crash recovery under the same hypotheses on persisted record and report leaves the flag and a reservation that is terminal on chain exactly if no accepted ending of it is unmined |
| `RecoveryRuns.AcceptedEndingCanBeMined` | internal/payment/escrow_contract.go:489-513 | in every fleet that keeps the invariant an accepted ending can still be mined, and that ends the reservation |
| `RecoveryRuns.MisleadingErrorStrandsTheEscrow` | internal/daemon/container_manager.go:1699-1706 | every error without decodable data whose message has a phrase strands an escrow: refused on a created reservation or lost on an active one, it leaves the deployment flagged, the reservation live and nothing on its way to end it |
| `RecoveryRuns.FlagsAreTrueIff` | internal/daemon/container_manager.go:1629-1742 | whatever set of errors the network can relay, all flags of all runs are true if and only if each of those errors decodes or has none of the phrases |
| `Unselected.ActivationTakesNothing` | internal/daemon/message_handlers.go:134-169 | an activation of a daemon never changes the chain |
| `Unselected.DaemonsNeverActivate` | internal/daemon/message_handlers.go:134-169 | in every run, unless somebody else selects its providers, a reservation is never activated, completed or disputed |
| `Unselected.LiveIsFlaggedIffMatched` | internal/daemon/container_manager.go:1686-1712 | a sweep that leaves a reservation live with nothing on its way to end it has flagged the deployment exactly if its call met an error the classifier takes for the end, in every interleaving |
| `Unselected.UnselectedIsNeverCompleted` | internal/daemon/container_manager.go:1629-1713 | a created reservation whose providers nobody else selects is completed by no sweep, and while it is neither refunded nor about to be, its deployment is flagged exactly if the call met an error that matches |
| `Lifecycle.DeployRecords` | internal/daemon/container_manager.go:440-580 | whatever happens meanwhile, a deployment that goes through is recorded under the deploying node, with its reservation, unflagged and tracked, beside unchanged others; opening a reservation creates it on chain, and no other escrow call is made |
| `Lifecycle.FailedDeployRefunds` | internal/daemon/container_manager.go:544-560 | one that fails before it is recorded makes one refund call and leaves no record |
| `Lifecycle.StartRuns` | internal/daemon/container_manager.go:1143-1181 | a start takes only stopped deployments and makes the very object it took, and no other, running and started, without a call |
| `Lifecycle.DriftBegins` | internal/daemon/container_manager.go:1762-1788 | a running deployment found otherwise gets the found status; only the originator with a wallet goes on to a refund |
| `Lifecycle.DriftRefunds` | internal/daemon/container_manager.go:1776-1794 | that refund is asked for once, whatever happens meanwhile, and no record changes |
| `Lifecycle.ReplicaIsCopy` | internal/daemon/replication.go:18-245 | a replica's record is the originator's as it was when it was broadcast, whatever happened since, and others stay |
| `Lifecycle.SavedEntryIsSnapshot` | internal/daemon/state.go:68-98 | an entry a save writes is the deployment as it was when the save began, whatever happened to it meanwhile, and the other entries stay |
| `Lifecycle.RestartRestores` | internal/daemon/state.go:100-126 | after a crash and a load the daemon knows exactly what is on its disk and has nothing cached, tracked or in flight |
| `Lifecycle.SavedSurvivesCrash` | internal/daemon/state.go:128-215 | a save written as a whole brings back, after a crash, exactly the deployments known when it began |
| `Escrow.LifeOfReservation` | contracts/src/BunkerEscrow.sol:201-472 | the action sequences a reservation executes, and the status each leads to: created; refunded at once or given providers; paid out; completed, refunded or disputed once, and nothing after |
| `RecoveryRuns.UnminedTransactionStrandsTheEscrow` | internal/daemon/container_manager.go:1687-1693 | a concrete run ends flagged with the reservation still active and out of reach of later sweeps |
| `EscrowErrors.NeverAbandonsIff` | internal/payment/escrow_errors.go:42-148 | an error is never taken for the end of a live reservation, for every status that is not terminal, exactly if its data decodes or its message has none of the phrases |
| `EscrowErrors.NameMatches` | internal/payment/escrow_errors.go:57-73 | every message that contains the name of the status error matches, whatever surrounds it |
| `EscrowErrors.EveryPhraseMatches` | internal/payment/escrow_errors.go:57-73 | a message with any of the phrases in it, in any letter case, matches |
| `EscrowErrors.DecodedStatusDecides` | internal/payment/escrow_errors.go:42-148 | an error whose data decodes is taken for the end exactly if it reports a final status, whatever its text; the text decides otherwise |
| `EscrowErrors.NoReservationIsTransient` | internal/payment/escrow_contract.go:124-132 | the error for a job without a reservation is never taken for an ended one |
| `ContainerManager.Manager.Pay` | internal/payment/service.go:384-404 | an escrow call is one step of the fleet: cache, chain, call log and the operation change as the answer and its error say |
| `ContainerManager.Manager.Stop` | internal/daemon/container_manager.go:1032-1137 | refusals change nothing; otherwise only the originator releases (if started) and finalizes, in this order; status, tracker and flag, which is set exactly if the cached reservation was given up to an accepted ending; the whole is a run of the fleet |
| `ContainerManager.Manager.SettleStop` | internal/daemon/container_manager.go:1048-1114 | only the originator releases if started and then finalizes; flag set and cache entry dropped exactly if that was accepted |
| `ContainerManager.Manager.Delete` | internal/daemon/container_manager.go:1186-1316 | the record leaves map, tracker and disk; the exact calls in order; the whole is a run of the fleet |
| `ContainerManager.Manager.SettleDelete` | internal/daemon/container_manager.go:1196-1231 | finalize what ran (releasing first if it still runs), refund the rest, flag and drop the cache entry on acceptance, originator only |
| `ContainerManager.Manager.ReconcileOnStartup` | internal/daemon/container_manager.go:1541-1596 | every known deployment is looked up once and its status follows the report, nothing else of any record changes, the result tells whether a status did; the whole is a run of the fleet |
| `ContainerManager.Manager.ReconcileOne` | internal/daemon/container_manager.go:1556-1587 | a missing container is stopped if it was running or pending, any other takes the reported status |
| `ContainerManager.Manager.CollectOrphans` | internal/daemon/container_manager.go:1641-1661 | the loop collects each own, unflagged, stopped or failed deployment once and nothing else |
| `ContainerManager.Manager.Rehydrate` | internal/daemon/container_manager.go:1672-1683 | the cache gains exactly the parseable persisted reservations of the orphans |
| `ContainerManager.Manager.ReconcileEscrowsOnStartup` | internal/daemon/container_manager.go:1629-1713 | the method is the sweep step of the fleet, with one goroutine for each orphan |
| `ContainerManager.Manager.FinalizeOrphan` | internal/daemon/container_manager.go:1690-1711 | a goroutine makes one finalize call and flags exactly on success or on an error the classifier takes for the end; it is a run of the fleet |
| `ContainerManager.Manager.MarkEscrowFinalized` | internal/daemon/container_manager.go:1717-1727 | the flag is set if the deployment still exists, and nothing else changes |
| `ContainerManager.Manager.FinalizeAllEscrows` | internal/daemon/container_manager.go:1824-1865 | exactly the own, running, started deployments are released and then finalized, once each; no flag or status changes; the whole is a run of the fleet |
| `ContainerManager.RunsKeepInv` | internal/daemon/container_manager.go:1032-1865 | whatever those methods do keeps the invariant of the fleet |
| `Activation.SelectProviders` | internal/daemon/container_manager.go:1377-1422 | the array filled in place is the local wallet, then the first two distinct other wallets of successful acks in ack order, then zeros |
| `Activation.FirstDistinctIsFresh` | internal/daemon/container_manager.go:1384-1421 | the values chosen come from the list and are not among those seen |
| `Activation.FirstDistinctIsOrdered` | internal/daemon/container_manager.go:1384-1421 | the values chosen are distinct and in order of first occurrence |
| `Activation.FirstDistinctSkipsNothing` | internal/daemon/container_manager.go:1384-1421 | a value is left out only if it was seen or the room was taken by earlier ones |
| `Activation.ResolveWallet` | internal/daemon/container_manager.go:1388-1413 | the loop finds the wallet the directory gives the node |
| `Activation.StakeComesFirst` | internal/daemon/container_manager.go:1388-1413 | a non-zero staked wallet is used; otherwise the first peer with that id and a wallet pays, and there is none exactly if no peer has one; no wallet for what is not an id |
| `Activation.NodeIdRoundTrip` | pkg/types/types.go:16-18 | a printed node id is read back as that id, and no other length is |
| `Activation.AcceptedIffTwoMoreWallets` | contracts/src/BunkerEscrow.sol:319-353 | the contract accepts the array exactly if the local wallet is set and two further distinct wallets are among the candidates |
| `Activation.PendingDeployment.HandleAck` | internal/daemon/message_handlers.go:125-170 | the ack is recorded, and the first success alone yields the snapshot to activate with |
| `Activation.ActivatesOnceOnTheFirstSuccess` | internal/daemon/message_handlers.go:134-169 | for every sequence of acks there is at most one activation, with exactly one success in its snapshot |
| `Activation.SnapshotIff` | internal/daemon/message_handlers.go:134-169 | the handler can activate with exactly those ack lists that end in their one success |
| `Activation.ActivationIsNeverAccepted` | internal/daemon/message_handlers.go:134-169 | for every sequence of acks and every directory the third provider is zero and the contract refuses |
| `Activation.DetermineDeploymentRegions` | internal/daemon/container_manager.go:1458-1475 | the loop yields the local region and the first two other distinct peer regions |
| `Activation.RegionsAreDistinct` | internal/daemon/container_manager.go:1458-1475 | one to three distinct regions, the local one first, the others regions that peers name, and fewer than three only if no located peer is elsewhere |
| `Frames.ParseIffEncoded` | cmd/exec-agent/protocol.go:55-73 | reading succeeds exactly on an encoded small frame followed by the rest |
| `Frames.ReadsBackThenContinues` | cmd/exec-agent/protocol.go:34-73 | reading encoded frames gives the frames and then whatever the tail gives |
| `Frames.ReadsBack` | cmd/exec-agent/protocol.go:34-73 | for every list of frames under 1 MiB, reading the writes gives the list |
| `Frames.EncodingIsInjective` | cmd/exec-agent/protocol.go:34-52 | two lists with the same bytes are the same list |
| `Frames.LengthRoundTrip` | cmd/exec-agent/protocol.go:34-52 | the length field reads back |
| `Frames.BytesRoundTrip` | cmd/exec-agent/protocol.go:55-63 | every four bytes are the encoding of the length they read as |
| `Frames.Reader.ReadFrame` | cmd/exec-agent/protocol.go:55-73 | the stateful reader returns what parsing gives and consumes exactly the frame |
| `Frames.Writer.WriteFrame` | cmd/exec-agent/protocol.go:34-52 | oversized frames write nothing; otherwise the pieces up to the first failed write, and success exactly if none failed |
| `Frames.AcceptedIff` | cmd/exec-agent/protocol.go:34-52 | the number of writes before the first failure: those succeed and, unless that is all, the next one fails |
| `Frames.PiecesMakeTheFrame` | cmd/exec-agent/protocol.go:34-52 | the separate writes of one frame join to its encoding |
| `Frames.AtomicWritersReadAsShuffle` | cmd/exec-agent/main.go:202-257 | any interleaving of two frame-atomic writers reads as a shuffle of their lists |
| `Frames.ReadsAsShuffleIff` | cmd/exec-agent/protocol.go:34-73 | a stream as long as two lists is read as a shuffle of them exactly if it is the encoding of one |
| `Frames.InterleavedPiecesReadIff` | cmd/exec-agent/main.go:202-257 | for every interleaving of the pieces of two writers, the reader sees a shuffle of their lists exactly if the bytes are the encoding of one |
| `Frames.TornFramesAreMisread` | cmd/exec-agent/main.go:202-257 | behind any whole frames, a length followed by the other writer's length is never read as a shuffle of lists that have more frames and no type zero, whatever follows |
| `Frames.TearAfterTypeReadIff` | cmd/exec-agent/protocol.go:34-52 | a frame written between header and payload of another is read back with it exactly if that payload or that header commutes with its bytes |
| `Frames.TearBytes` | cmd/exec-agent/protocol.go:34-52 | the bytes of that tear are those of the writes: length and type, the other frame's pieces, the payload |
| `Frames.TornCanReadBack` | cmd/exec-agent/protocol.go:34-52 | a payload that is itself a frame can be torn around that frame and still be read back |
| `Relay.RelayableIffSplit` | internal/api/exec_handler.go:618-665 | the relayed frames are characterised as the one split of the bytes into small non-close frames and a tail that ends the stream |
| `Relay.PumpAgentStdout` | internal/api/exec_handler.go:618-665 | for every byte string and every pattern of failing writes, the messages emitted are the prefix the writes allow of those frames and one close, and the accounted bytes are the DATA bytes that went out |
| `Relay.ClientSeesAgent` | internal/api/exec_handler.go:618-665 | type and payload of each relayed frame can be told from its message, and the last message, and only it, is a close |
| `Relay.WriteAgentStdinFrame` | internal/api/exec_handler.go:575-594 | refuses what is over the limit without writing, otherwise one write of the encoding |
| `Relay.BridgeToAgent` | internal/api/exec_handler.go:461-525 | the writes are those of the forwarded messages that go through, each on its own, with the DATA bytes counted; if none fails and the read limit is kept, the agent reads back exactly the client's messages of known types up to the first close |
| `Relay.ForwardedIsFilter` | internal/api/exec_handler.go:461-525 | what is forwarded is each message with first byte 1, 2, 3, 4, 5, 7 or 8 up to and including the first 5, unchanged and in order, and no other |
| `Relay.SurvivorsSnoc` | internal/api/exec_handler.go:500-520 | a failing write loses its own frame and no other |
| `Relay.ReadsStdinIffSmall` | internal/api/exec_handler.go:583-594 | the agent reads the frames written exactly if all are under 1 MiB |
| `Relay.AgentSeesClientIff` | internal/api/exec_handler.go:461-525 | the agent reads exactly the client's messages of known types up to the first close exactly if none of them is over 1 MiB |
| `Relay.LimitKeepsFramesSmall` | internal/api/exec_handler.go:461 | messages within the WebSocket limit forward as small frames |
| `Relay.AgentSeesClient` | internal/api/exec_handler.go:461-525 | within the read limit the agent reads the client's messages at strictly increasing places, exactly those of known types up to the first close, byte for byte |
| `Nonces.Session.NextNonce` | cmd/exec-agent/session.go:93-113 | the counter advances even when the random draw fails; the nonce is counter, direction bit and tail |
| `Nonces.HeadOfNonce` | cmd/exec-agent/session.go:97-106 | the first eight bytes hold the counter modulo 2^63 and the direction in the top bit |
| `Nonces.NoncesEqualIff` | cmd/cli/commands/exec_session.go:85-112 | two nonces are equal exactly if direction, counter modulo 2^63 and tail are |
| `Nonces.NoncesAreDistinct` | cmd/exec-agent/session.go:26-34 | over any interleaving of both directions, with at most 2^63 each, all nonces differ whatever the tails |
| `Nonces.DistinctIffWithinBound` | cmd/exec-agent/session.go:26-34 | with a constant tail they differ exactly up to 2^63 encryptions, so the bound is the best possible |
| `StateTransfer.UnpackagesWhatWasPackaged` | internal/cloning/state.go:66-160 | unpackaging with the same key gives the data back for every key length and compression setting |
| `StateTransfer.UnpackagesUnder` | internal/cloning/state.go:102-255 | what every other key gets, if no other key opens what one sealed: without a key at packaging the data always; otherwise an error without a key, the data exactly if the first 32 bytes (of long keys) or the digests (of short ones) agree, and a decryption error else |
| `StateTransfer.UnpackagedIsChecked` | internal/cloning/state.go:122-160 | from any package, what is unpackaged hashes to its checksum; a missing key and a cut-off ciphertext are reported exactly when they occur |
| `StateTransfer.CountIsCeiling` | internal/cloning/state.go:277 | the number of chunks is the exact ceiling |
| `StateTransfer.ChunkBounds` | internal/cloning/state.go:280-286 | every chunk but the last is full, the last ends the data, none is empty |
| `StateTransfer.SplitIntoChunks` | internal/cloning/state.go:258-307 | the array filled by the loop holds exactly those chunks with their indices and hashes |
| `StateTransfer.AnnouncedAsCut` | internal/cloning/state.go:258-307 | number, size, total size, checksum and owner announced are those of the chunks, of which all but the last are full and none is empty |
| `StateTransfer.AssembleChunks` | internal/cloning/state.go:310-344 | the loops compute the specified reassembly, with the first failing check as the error |
| `StateTransfer.PlaceChunks` | internal/cloning/state.go:316-323 | chunks land in the slots of their indices, and only valid indices pass |
| `StateTransfer.JoinChunks` | internal/cloning/state.go:326-334 | data is joined in slot order exactly if every slot is intact |
| `StateTransfer.AcceptedIffPermutation` | internal/cloning/state.go:310-344 | a chunk list is accepted exactly if its length is as announced, its indices are a permutation, every chunk is intact, and the joined bytes hash and parse |
| `StateTransfer.FilledIsPermutation` | internal/cloning/state.go:316-330 | by the pigeonhole principle, if every slot is intact the indices are a permutation |
| `StateTransfer.AcceptedIsOriginal` | internal/cloning/state.go:336-344 | under an injective hash the accepted bytes and package are the original ones |
| `StateTransfer.AnyOrderAssembles` | internal/cloning/state.go:258-344 | the chunks of a package assemble to it in every order of arrival |
| `StateTransfer.RoundTrip` | internal/cloning/state.go:66-344 | package, split, permute, assemble and unpackage give the data back for every payload, key, compression setting and positive chunk size, together with identity, time, metadata, size and checksum |
| `CloneManager.SlotsAreRespected` | internal/cloning/manager.go:255-268 | no more executors than slots hold one, in every run |
| `CloneManager.HistoryCount` | internal/cloning/manager.go:387-505 | in every run a clone is in the history once for finishing and once for being cancelled, and active exactly while neither happened |
| `CloneManager.RecordMatchesRun` | internal/cloning/manager.go:214-422 | in every run a record shows its request's source and the last target named, stands in the phase its executor's calls add up to, shows that phase's status unless cancelled, and at the end how the executor ended |
| `CloneManager.ActiveOrFiledOnce` | internal/cloning/manager.go:214-422 | without cancellation every requested clone is active or in the history, never both, at most once |
| `CloneManager.ListedTwiceIff` | internal/cloning/manager.go:485-505 | a clone is listed more than once exactly if it was cancelled and its executor finished |
| `CloneManager.StatsAddUpIff` | internal/cloning/manager.go:508-529 | in every run completed plus failed is the history's length exactly if no cancelled clone with an unfinished executor has had its status written since |
| `CloneManager.EntriesAddUp` | internal/cloning/manager.go:387-505 | in every run active clones and history entries are the requested clones plus those cancelled and finished |
| `CloneManager.StatsAddUp` | internal/cloning/manager.go:508-529 | without cancellation both sums are exact |
| `CloneManager.LineageFollowsHistoryIff` | internal/cloning/manager.go:387-405 | in every run the lineage of a source is the targets of its completed clones in history order exactly if none of them had been cancelled |
| `CloneManager.LineageFollowsHistory` | internal/cloning/manager.go:387-405 | without cancellation it always is |
| `CloneManager.CancelledTwice` | internal/cloning/manager.go:485-505 | a run in which a cancelled clone is listed and counted twice |
| `CloneManager.CancelledUncounted` | internal/cloning/manager.go:375-379 | a run in which a cancelled clone is counted neither completed nor failed |
| `CloneManager.Manager.RequestClone` | internal/cloning/manager.go:214-252 | the object takes the request step |
| `CloneManager.Manager.CompleteClone` | internal/cloning/manager.go:387-405 | the object takes the success step, with history and lineage |
| `CloneManager.Manager.FailClone` | internal/cloning/manager.go:408-422 | the object takes the failure step, before or after it got a slot |
| `CloneManager.Manager.CancelClone` | internal/cloning/manager.go:485-505 | succeeds exactly on active clones and then takes the cancel step |
| `CloneManager.Manager.GetClone` | internal/cloning/manager.go:425-439 | finds exactly active and filed clones |
| `CloneManager.Manager.GetStats` | internal/cloning/manager.go:508-529 | the loop counts the statuses of the history's records |
| `CloneManager.Manager.GetCloneHistory` | internal/cloning/manager.go:455-469 | the most recent entries first, as many as the limit says |
| `NodeSelector.ExactOutranksFar` | internal/cloning/node_selector.go:152-191 | a node in the target region outscores any node of another continent, whatever the bonuses and the draw |
| `NodeSelector.NearCanOutrankExact` | internal/cloning/node_selector.go:152-191 | a node elsewhere on the continent can outscore it, whatever the draws |
| `NodeSelector.FresherScoresHigher` | internal/cloning/node_selector.go:165-173 | all else equal, passing one, five and fifteen minutes costs one point each, so a fresher node never scores lower |
| `NodeSelector.BonusesAdd` | internal/cloning/node_selector.go:155-186 | all else equal, what stronger isolation, Tor and a closer region are worth |
| `NodeSelector.ChanceOnlyBreaksTies` | internal/cloning/node_selector.go:152-191 | no two draws reverse an order the bonuses decide |
| `NodeSelector.ContinentsPartition` | internal/cloning/node_selector.go:194-219 | sharing a continent is an equivalence on the regions of the map |
| `NodeSelector.FindNodes` | internal/cloning/node_selector.go:47-111 | the error cases exactly; otherwise the best five, or all if fewer, of a descending ranking of exactly the eligible peers |
| `NodeSelector.OnlyNearPrecedeExact` | internal/cloning/node_selector.go:99-111 | ahead of a node in the requested region stand only nodes of that region or its continent, for every descending order |
| `NodeSelector.PickIsNear` | internal/cloning/node_selector.go:71-111 | if an eligible peer is in the region, the first node is in it or on its continent |
| `NodeSelector.ThirdChoiceIsFirst` | internal/cloning/manager.go:337-352 | choosing three times over gives what choosing once gives |
| `NodeSelector.DetermineRegion` | internal/cloning/manager.go:335-352 | the nested loops end at the first preferred region that is not the word asked with, or "americas" without preferences |
| `NodeSelector.SelectTargetNode` | internal/cloning/manager.go:325-372 | the requested node if one is named; otherwise an eligible peer, near the region whenever an eligible peer is in it, and an error exactly if there is none |
| `Admission.RunStaysWithin` | internal/crawl/scheduler.go:93-135 | live records plus calls past the count never exceed max + calls - 1, in every run |
| `Admission.StepStaysWithin` | internal/crawl/scheduler.go:93-135 | that bound is inductive |
| `Admission.CapIsReached` | internal/crawl/scheduler.go:93-135 | for every positive maximum and number of concurrent calls a run reaches the bound |
| `CrawlScheduler.StepRefines` | internal/crawl/scheduler.go:93-241 | every scheduler operation is a step of the admission gate |
| `CrawlScheduler.ActiveJobsAreCapped` | internal/crawl/scheduler.go:93-135 | a wallet never exceeds max + calls - 1 active jobs (max with one call at a time) |
| `CrawlScheduler.JobCapIsReached` | internal/crawl/scheduler.go:93-135 | that many active jobs are reachable |
| `CrawlScheduler.FinishedStaysFinished` | internal/crawl/scheduler.go:147-241 | no run makes a finished job active again |
| `CrawlScheduler.CreatedJobFollowsCalls` | internal/crawl/scheduler.go:121-241 | in every run a job belongs to whom it was created for, and the last reported verdict, else a cancellation, else a start decides its status |
| `CrawlScheduler.Scheduler.CheckLimit` | internal/crawl/scheduler.go:93-105 | the counting loop admits exactly below the maximum |
| `CrawlScheduler.Scheduler.InsertJob` | internal/crawl/scheduler.go:121-135 | the job is inserted as pending |
| `CrawlScheduler.Scheduler.StartJob` | internal/crawl/scheduler.go:147-162 | only a pending job starts; otherwise nothing changes |
| `CrawlScheduler.Scheduler.CompleteJob` | internal/crawl/scheduler.go:181-206 | any known job becomes completed |
| `CrawlScheduler.Scheduler.FailJob` | internal/crawl/scheduler.go:209-222 | any known job becomes failed |
| `CrawlScheduler.Scheduler.CancelJob` | internal/crawl/scheduler.go:225-241 | any known job but a completed or failed one becomes cancelled |
| `AgentRuntime.StepRefines` | internal/agent/runtime.go:63-273 | every runtime operation is a step of the admission gate |
| `AgentRuntime.LiveAgentsAreCapped` | internal/agent/runtime.go:63-126 | a wallet never exceeds max + calls - 1 live agents |
| `AgentRuntime.AgentCapIsReached` | internal/agent/runtime.go:63-126 | that many live agents are reachable |
| `AgentRuntime.FinishedStaysFinished` | internal/agent/runtime.go:138-273 | a stopped or failed agent stays so or is deleted |
| `AgentRuntime.LiveAgentsAreInBudget` | internal/agent/runtime.go:188-214 | in every run a live agent with a budget has a recorded use below it |
| `AgentRuntime.TokensAreSummed` | internal/agent/runtime.go:188-214 | in every run an agent's use is the wrapped sum of the tokens recorded for it and its invocations their number; owner and budget stay |
| `AgentRuntime.LiveIffBelowBudget` | internal/agent/runtime.go:94-214 | in every run, from its insertion on, with non-negative tokens and no overflow: an agent with a budget is live only while their sum is below it, and exactly that long unless it is stopped or fails |
| `AgentRuntime.UnfinishedStatus` | internal/agent/runtime.go:138-161 | until a call finishes it, an agent is running if it was started and pending otherwise |
| `AgentRuntime.FinishedStatus` | internal/agent/runtime.go:164-273 | the last stop, error or exhausting record decides: failed after an error, stopped otherwise |
| `AgentRuntime.UpdateSpares` | internal/agent/runtime.go:138-273 | an update touches one agent, revives none, and deletes exactly what neither runs nor starts |
| `AgentRuntime.Runtime.CheckLimit` | internal/agent/runtime.go:63-75 | the counting loop admits exactly below the maximum |
| `AgentRuntime.Runtime.InsertAgent` | internal/agent/runtime.go:94-126 | the agent is inserted as pending with its own or the configured budget |
| `AgentRuntime.Runtime.StartAgent` | internal/agent/runtime.go:138-161 | only a pending or starting agent starts |
| `AgentRuntime.Runtime.StopAgent` | internal/agent/runtime.go:164-185 | any known agent is stopped |
| `AgentRuntime.Runtime.RecordInvocation` | internal/agent/runtime.go:188-214 | a known agent takes the recording step: use added with 64-bit wrap-around, one more invocation, stopped at its budget |
| `AgentRuntime.Runtime.DeleteAgent` | internal/agent/runtime.go:246-261 | only agents neither running nor starting are deleted |
| `AgentRuntime.Runtime.FailAgent` | internal/agent/runtime.go:264-273 | a known agent becomes failed |
| `ExecSessions.RunKeepsCaps` | internal/api/exec_sessions.go:78-175 | in every run sessions in all, per wallet and per container, and challenges, stay within their caps |
| `ExecSessions.StartsCapped` | internal/api/exec_sessions.go:54-70 | a new manager is within its caps |
| `ExecSessions.AdmittedIffCapped` | internal/api/exec_sessions.go:145-176 | where the caps hold, a session under a new id is admitted exactly if they would hold with it |
| `ExecSessions.SessionLivesUntilIdle` | internal/api/exec_sessions.go:194-240 | in every run a session stays exactly until a reaping more than thirty minutes after it was last touched, and nothing of it changes but that time |
| `ExecSessions.AcceptedOncePerCreation` | internal/api/exec_sessions.go:117-142 | in every run a nonce is accepted at most as often as it was created, so a fresh one at most once |
| `ExecSessions.AcceptedWasIssuedInTime` | internal/api/exec_sessions.go:78-142 | what is accepted was issued for that container and wallet at most thirty seconds before |
| `ExecSessions.FirstValidationIff` | internal/api/exec_sessions.go:117-142 | with a clock that does not run backwards the first validation succeeds exactly if it is in time, whatever happens between |
| `ExecSessions.IssuedIsAcceptedIff` | internal/api/exec_sessions.go:78-142 | a challenge, once issued, is accepted exactly within its thirty seconds, for its container and wallet, and not a second time |
| `ExecSessions.ChallengeStaysUntilExpiry` | internal/api/exec_sessions.go:78-255 | in every run an unused challenge takes up room exactly until a reaping after its expiry |
| `ExecSessions.ExecSessionManager.CreateChallenge` | internal/api/exec_sessions.go:78-114 | refused exactly at the cap, otherwise stored with its expiry |
| `ExecSessions.ExecSessionManager.ValidateChallenge` | internal/api/exec_sessions.go:117-142 | returns the stored challenge exactly if present and in time, and removes it either way |
| `ExecSessions.ExecSessionManager.CountSessions` | internal/api/exec_sessions.go:154-165 | the loop counts the wallet's and the container's sessions |
| `ExecSessions.ExecSessionManager.AddSession` | internal/api/exec_sessions.go:145-176 | admitted exactly below all three caps |
| `ExecSessions.ExecSessionManager.RemoveSession` | internal/api/exec_sessions.go:179-183 | the session is gone and nothing else changes |
| `ExecSessions.ExecSessionManager.TouchSession` | internal/api/exec_sessions.go:194-200 | only the activity time of a known session changes |
| `ExecSessions.ExecSessionManager.ReapOnce` | internal/api/exec_sessions.go:220-255 | exactly idle sessions and expired challenges are removed |
| `RateLimit.RateLimiter.Allow` | internal/daemon/api_rate_limit.go:43-61 | the object takes the refill and grant step |
| `RateLimit.RateIsCapped` | internal/daemon/api_rate_limit.go:43-61 | in every run, a closed interval of length L > 0 sees at most M * ((L - 1) / P + 2) grants, and M if L is zero |
| `RateLimit.CapInPeriods` | internal/daemon/api_rate_limit.go:43-61 | that is at most M * (L / P + 2) |
| `RateLimit.RateCapIsReached` | internal/daemon/api_rate_limit.go:33-61 | for every maximum, period and length a new limiter can be driven to exactly that many |
| `RateLimit.DomainRateLimiter.Allow` | internal/crawl/rate_limiter.go:25-37 | the object permits and notes, or refuses and changes nothing |
| `RateLimit.DomainIsCapped` | internal/crawl/rate_limiter.go:25-37 | in every run, among requests to any domains, at most L / I + 1 to one domain are permitted in an interval of length L |
| `RateLimit.DomainCapIsReached` | internal/crawl/rate_limiter.go:25-37 | that many are reached |
| `Catalog.ValidateId` | internal/api/catalog_store.go:401-411 | the loop accepts exactly well-formed identifiers |
| `Catalog.ValidatePreset` | internal/api/catalog_store.go:413-436 | accepts exactly well-formed presets |
| `Catalog.ValidateCategory` | internal/api/catalog_store.go:438-446 | accepts exactly well-formed categories |
| `Catalog.ValidateTier` | internal/api/catalog_store.go:448-465 | accepts exactly well-formed tiers |
| `Catalog.ValidateCatalog` | internal/api/catalog_store.go:467-516 | the three loops with their seen sets accept exactly valid catalogs |
| `Catalog.LocalChecksSuffice` | internal/api/catalog_store.go:189-375 | on a valid catalog the local checks accept an operation exactly if its item exists, the whole resulting catalog is valid and its body's id is well formed; the result is valid and one version up |
| `Catalog.AppliedMeans` | internal/api/catalog_store.go:189-375 | what each accepted operation leaves: an added item at the end, the body under the path's id in place of the old item, the list without exactly that id in order, or the given lists; every other item and list as before |
| `Catalog.AcceptedIffPossible` | internal/api/catalog_store.go:189-375 | an operation is accepted exactly if it can be carried out with a valid catalog as the result and the id in its body is well formed |
| `Catalog.DeleteCategoryIff` | internal/api/catalog_store.go:334-354 | deleting a category is accepted exactly if it exists and no preset refers to it, that is if the rest is valid |
| `Catalog.UnusedIdIsRefused` | internal/api/catalog_store.go:312-330 | an update that would leave a valid catalog is refused over an id it does not use |
| `CatalogStore.RunStaysSound` | internal/api/catalog_store.go:105-375 | catalog and file stay valid under every sequence of operations, failing writes and restarts |
| `CatalogStore.VersionCountsChanges` | internal/api/catalog_store.go:189-375 | between restarts the version counts exactly the accepted operations |
| `CatalogStore.DurableIff` | internal/api/catalog_store.go:105-130 | since the last restart, another would lose nothing exactly if no operation was accepted, or the last accepted one was saved, or the file was last torn and the catalog is the built-in one |
| `CatalogStore.RestartIsDurable` | internal/api/catalog_store.go:105-120 | every restart leaves memory and file in agreement |
| `CatalogStore.SavedChangesSurvive` | internal/api/catalog_store.go:105-130 | as long as writes succeed, a restart loses nothing |
| `CatalogStore.FailedWriteIsNotDurable` | internal/api/catalog_store.go:124-130 | a change whose write fails is applied in memory; a restart undoes it, or falls back to the built-in catalog if the file was torn |
| `CatalogStore.GetPublic` | internal/api/catalog_store.go:151-186 | the loops compute the public view in order |
| `CatalogStore.PublicIsFiltered` | internal/api/catalog_store.go:151-186 | the public view is, in order, the enabled categories and tiers and the enabled presets of enabled categories, under the same version |
| `CatalogStore.ShownIffEnabled` | internal/api/catalog_store.go:151-186 | in a valid catalog a preset is shown exactly if it and the category it names are enabled, and then the category is shown |
| `CatalogStore.TierShownIffEnabled` | internal/api/catalog_store.go:172-177 | a shown preset's default tier is shown exactly if enabled |
| `CatalogStore.PublicTierCanDangle` | internal/api/catalog_store.go:172-177 | a valid catalog whose public preset names a tier that is not shown |
| `CatalogStore.Store.constructor` | internal/api/catalog_store.go:81-120 | the stored catalog if readable, the built-in one otherwise |
| `CatalogStore.Store.Replace` | internal/api/catalog_store.go:189-201 | refused exactly if invalid and then unchanged; otherwise the given lists one version up, with the outcome of the write |
| `CatalogStore.Store.AddPreset` | internal/api/catalog_store.go:204-237 | refused without a change, or the preset is appended and nothing else changes |
| `CatalogStore.Store.UpdatePreset` | internal/api/catalog_store.go:240-268 | refused without a change, or the preset under that id is the body with that id, and nothing else changes |
| `CatalogStore.Store.DeletePreset` | internal/api/catalog_store.go:271-284 | refused without a change, or exactly the preset under that id is gone and the others keep their order |
| `CatalogStore.Store.AddCategory` | internal/api/catalog_store.go:287-309 | refused without a change, or the category is appended and nothing else changes |
| `CatalogStore.Store.UpdateCategory` | internal/api/catalog_store.go:312-330 | refused without a change, or the category under that id is the body with that id, and nothing else changes |
| `CatalogStore.Store.DeleteCategory` | internal/api/catalog_store.go:334-354 | refused without a change while referenced or missing, or exactly that category is gone and the others keep their order |
| `CatalogStore.Store.UpdateTier` | internal/api/catalog_store.go:357-375 | refused without a change, or the tier under that id is the body with that id, and nothing else changes |

## Left out

- FleetSafety.FlagNeverLeadsChain: assumes that errors decode or have none of the phrases, because the claim is false otherwise (`FlagsAreTrueIff`); `FlagFollowsAcceptance` is what holds in every run.
- RecoveryRuns.AcceptedEndingCanBeMined: an accepted transaction that is mined and fails for want of gas is not modelled.
- NodeSelector.FindNodes: scores are real numbers, so rounding of the floating-point sum is not modelled, and sorting is by insertion; the ranking results hold for every descending order.
- ContainerManager.Manager.Stop: networking, reputation, health probes, image tracking and exec keys are not modelled, and the object's methods run one at a time; interleavings are the fleet's business.
- CatalogStore.RunStaysSound: starts from a valid file and a valid built-in catalog, because loading does not validate; the built-in data itself is not modelled.
- StateTransfer.RoundTrip: JSON is assumed to give back the package it wrote, so lost clock precision and empty metadata maps are not modelled.
- AgentRuntime.Runtime.InsertAgent: framework defaults, images, tools and memory buckets are not modelled.
- A replica that starts its container changes a private copy of the record and nothing else, so there is no step for it.
- Deploy, Start, drift, activation, delivery and saving are steps of `Fleet`, with their effects in `Lifecycle`, but not methods of the `ContainerManager` object: they would repeat the same shape.
- HTTP, REST and socket handlers, the command line, configuration and wiring: plumbing.
- containerd, Tor, the PTY, gossip, DNS and service exposure: foreign code.
- Real cryptography, compression, serialisation and hashing: function parameters with laws.
- The exec agent's session loop and its size parsers: easy next to the frame and nonce results.
- Crawl results, URL deduplication, robots rules, aggregate statistics and byte counters: counters without an invariant of depth.
- The random node selector and its shuffle, which only tests use.
- Update times, error texts, logging, metrics and audit events.
- The `Used` mark of a challenge, which is set only on a challenge that is removed in the same critical section.
