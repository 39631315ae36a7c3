# Mesh verification

A Dafny model of the durable delivery engine of the mesh and of the small machines around it, with proofs.
`dafny verify dfyconfig.toml` checks the whole project.

## What is modelled

**The store and the delivery protocol.** `Tables` holds one member's encrypted store as a value, one map per table, and each
transaction as a function from tables to tables; `Stores.Store` is the object that runs them, with the source's scans and
loops, and is proved to compute exactly those functions. `TablesInvariant` says what every reachable store satisfies;
`StoreRuns` draws the consequences over runs. `Network` joins any number of stores into a transition system: a member may at
any moment run a transaction, finalize a delivery, drain, or accept any record at all from anyone, as long as its signatures
verify. Losing, repeating, reordering and delaying records, and restarting members, are therefore all included.
`Effects` says of each transaction, table by table and without its definition, when it succeeds and which rows it leaves;
`Evidence` says the same of issuing and verifying signed records. `NetworkSafety` proves the end-to-end claims: a receipt
recorded at an origin, an emptied outbox, a retired retry and a `Delivered` message each mean that the members concerned had
committed. `NetworkOrigins` proves that what any member stores or delivers is what its origin committed for it, and
`Deliveries` that every queued object can still be delivered to every target, confirmed and retired. `NetworkMessages`
follows whole messages: once every audience is queued, a message is never taken back. `Enqueue` is the loop that queues one
text for the whole roster, with a process that may die after any transaction; `CrashRuns` is one run in which it does.
`Draining` is the slot by slot drain of an outbox.

**Flooding.** `Flooding`, `Simulator` and `Topology` model the relay simulator's queue loop over real `RelayCaches.RelayCache`
objects. On any symmetric graph the loop ends and reaches what its hop budget allows; over the planned overlay it never fails,
unless a partition outlasts the frames. `Overlay` gives the planned links, their exact graph distance and the
diameter.

**Sessions.** `Replays` is the 64-bit window over machine words (`Words`), `Sessions` the endpoint, `SessionRuns` two endpoints
under a network that may do anything but forge.

**Codecs.** `Cbor` is bounded deterministic CBOR (RFC 8949, sections 3 and 4.2.1) with its writer and reader; on it stand
`ManifestCodec`, `PolicyCodec`, `HandoffCodec` and `HeaderCodec`. `RecordCodec` has the fixed-layout relay records and
`Envelopes` the size arithmetic of sealing. Each decoder accepts exactly the encodings of valid values, and `Schemas` relates
the encodings to the schemas under `schema/` and to the published vectors.

**Policy.** `Policies` verifies rosters, `PolicyHistory` pins them over any history of installs.

**Reducers, event log, host formats.** `DurableSends` and `DurableReceives` are the effect reducers; `EventLogs` is the bounded
diagnostic log against its full history; `SnapshotCodec` and `HostEnvelopes` join the Rust encoder with the strict Swift
decoder; `BleSegmentation` cuts records into Bluetooth writes and puts them together.

## Assumptions

- Digests are ideal: a digest is the value it was taken of. Signatures are ideal: a record verifies exactly when its named
  signer signed it. A session ciphertext opens exactly when the peer made it for this session, direction and number.
- A transaction commits whole or leaves the tables as they were.
- `objects` is keyed by id and unique on (origin, sequence); `chunks` by (object, index); `target_receipts` and
  `origin_receipt_acks` by (object, actor); the other object tables by object, as the schema under `schema/store/` declares. A
  schema check that would refuse a row is `StorageUnavailable` in the model.
- A host rolls a message back only while it lacks an audience, and commits a linked object only with the message's own expiry:
  the two callers of the rollback and the one caller of the linked commit do so (`crates/mesh-ffi-c/src/lib.rs:766-837`).
- Clock, randomness, sealing, opening and the parsed contents of an envelope are arguments.
- Outside the codecs a member identifier is the big-endian value of its 32 bytes.

## Findings

- The comment at `crates/mesh-store/src/lib.rs:251-253` holds that rolled back objects cannot have left the device. It is wrong
  for a message that still lacks an audience: after a crash between audience commits the earlier audiences are in the outbox,
  may be drained and accepted by other members, and are then rolled back by the retry (`CrashRuns.RolledBackAfterLeaving`). A
  finished `enqueue_text` call takes an unexpired outbox entry away exactly when `Attempts` holds and the pruned store links
  that object to the message (`Enqueue.EnqueueText`). A fully queued message is never rolled back
  (`NetworkMessages.FullMessageRetires`).
- `enqueue_text` is all or nothing only once it has begun. After a refused call something of the identifier remains exactly
  when `Attempts` does not hold and the message is among the tables that the call keeps (`Enqueue.EnqueueText`);
  `Enqueue.RefusedCallKeepsMessage` is such a call.
- On a nondecreasing clock the relay cache agrees with a cache that never forgets exactly when never more than 512 keys are
  unexpired (`RelayCaches.CapacityExact`). Beyond that a key can be forwarded twice, in a run of 514 offers
  (`RelayCaches.OverflowForwardsTwice`).
- Outbox slots are 16-bit. They reach every record exactly when there are at most 65536 (`Draining.SlotsReachAll`). A store of
  3856 sealed objects is within the default limits and has a record that no slot gives (`Draining.StoreOutgrowsSlots`).
- The resource error for a full event counter is unreachable: request numbers run out first (`EventLogs.VerifyExact`).
- The simulator's error for a missed member is unreachable within its limits, for every partition time; it fails exactly when
  the partition lasts until the frames expire (`Topology.RunRelayTopologyWithPartition`).
- The host can encode requests the runtime refuses: an info request with an argument, and a bridge request numbered zero
  (`HostEnvelopes.RequestsUnderstood`).
- The comments of `schema/protocol/lab-v1.cddl:30` allow announcements of 8192 bytes. The code refuses more than 3998
  (`crates/mesh-protocol/src/lib.rs:18` and `52`), and so does the model (`RecordCodec.RecordLayout`).

## Model

| member | source | states |
|---|---|---|
| NetworkSafety.ReceiptsAreCommitted | crates/mesh-ffi-c/src/lib.rs:1090-1208 | in every run with loss, duplication, reordering, restarts and crashes, an origin holds a receipt of a target only if that target’s store once held its own committed delivery with this very receipt |
| NetworkSafety.ConfirmedCommitted | crates/mesh-store/src/authenticated.rs:319-364 | if every target’s receipt is recorded, every target had committed its delivery |
| NetworkSafety.OutboxRetires | crates/mesh-store/src/authenticated.rs:339-358 | a step takes an object out of its origin’s outbox only if every target had committed it, or it expired, or its logical message was rolled back |
| NetworkMessages.FullMessageRetires | crates/mesh-ffi-c/src/lib.rs:766-837 | over any run, once every audience of a message is queued, an object of it leaves the outbox only when pruned at its expiry or after every one of its targets committed |
| NetworkMessages.FullMessageStays | crates/mesh-ffi-c/src/lib.rs:766-837 | such a message keeps its row and its links until it is pruned at its expiry; no rollback takes it back |
| NetworkMessages.RunAligned | crates/mesh-ffi-c/src/lib.rs:768-826 | in every run a linked object expires with its message, and no message is declared without an audience |
| CrashRuns.RolledBackAfterLeaving | crates/mesh-store/src/lib.rs:251-278 | a run in which an unexpired object that another member already holds, and that no target has committed, is rolled back out of its origin’s outbox |
| NetworkSafety.AcknowledgedIsRecorded | crates/mesh-store/src/authenticated.rs:468-496 | a recipient counts a receipt as acknowledged only after the object’s origin had recorded exactly that receipt |
| NetworkSafety.RetryStopsAfterRecording | crates/mesh-store/src/authenticated.rs:256-282 | an unexpired receipt of a recipient leaves its retry list only after the origin recorded it |
| NetworkSafety.RelayReceiptRetires | crates/mesh-ffi-c/src/lib.rs:1175-1208 | a relay drops a receipt in custody only when it expired or after the origin recorded it |
| NetworkSafety.DeliveredMessageIsCommitted | crates/mesh-store/src/lib.rs:1438-1498 | a message whose summary is `Delivered` had been committed by every target of each of its objects |
| Deliveries.DeliveryCompletes | crates/mesh-ffi-c/src/lib.rs:1090-1208 | from every reachable state a run goes on in which a target of a queued object delivers it, the origin records exactly the receipt that the target’s commit signed, the target learns of it, and nothing else of the origin’s receipts changes |
| Deliveries.EveryTargetCompletes | crates/mesh-store/src/authenticated.rs:319-364 | going on so for every target that has not confirmed, the object leaves its origin’s outbox with the last receipt |
| Deliveries.DrainFeeds | crates/mesh-ffi-c/src/lib.rs:910-970 | each slot of the origin’s drain gives the frame and the record that a target accepts in those runs |
| NetworkOrigins.AnnouncedWasCommitted | crates/mesh-protocol/src/lib.rs:817-854 | in every run, whatever announced object any member stores, its origin had committed under that very announcement |
| NetworkOrigins.ChunksAreTheOrigins | crates/mesh-store/src/lib.rs:830-963 | in every run a chunk that any member holds of an announced object is the one its origin had stored when it committed the object |
| NetworkOrigins.DeliveredWasAddressed | crates/mesh-store/src/authenticated.rs:187-249 | in every run a member delivers only objects of others that name it as target, before their expiry, and that their origin committed |
| NetworkSequences.OwnSequencesHandedOut | crates/mesh-store/src/lib.rs:646-701 | in every run, with objects arriving from any member, no store holds an object of its own member under a sequence still to be handed out |
| NetworkSequences.OpAdds | crates/mesh-store/src/lib.rs:712-795 | the only transactions that add an object are a commit, under a reserved sequence of this member, and an announcement |
| StoreRuns.ReachableInv | crates/mesh-store/src/lib.rs:712-963 | after any run of transactions from empty tables: keys and unique slots, genuine chunks, complete only when whole, modes, bound custody frames, delivery exactly with receipt, outbox exactly the unconfirmed committed objects, links within totals |
| StoreRuns.RunKeepsObject | crates/mesh-store/src/authenticated.rs:28-116 | whatever a run does, an object it never deletes keeps its mode, announcement, forwarding frame, delivery time and receipt |
| StoreRuns.SequenceNeverReused | crates/mesh-store/src/lib.rs:646-701 | a sequence handed out is below every later one, across any pruning and rollback |
| StoreRuns.RelayQueueSound | crates/mesh-store/src/lib.rs:1061-1117 | a queued relay object has a recorded signed announcement, all chunks genuine, is foreign, and its frame is bound to the manifest |
| StoreRuns.CompleteIsWhole | crates/mesh-store/src/lib.rs:830-963 | `complete` means every chunk index is stored and verified, and no other index is |
| StoreRuns.DeliveredIffReceipt | crates/mesh-store/src/authenticated.rs:187-249 | an authenticated object is delivered locally exactly when it has this member’s signed receipt |
| StoreRuns.ProgressNeverCorrupt | crates/mesh-store/src/authenticated.rs:514-526 | the progress query never finds more receipts than targets, and says all confirmed exactly when the committed object has left the outbox |
| StoreRuns.LinkedCount | crates/mesh-store/src/lib.rs:1469-1486 | receipts of a linked object never exceed its targets, and reach them exactly when it is not in the outbox |
| StoreRuns.LinkedWithinTotals | crates/mesh-store/src/lib.rs:1769-1831 | linked audiences and their targets never exceed what the message declared |
| StoreRuns.SummaryExact | crates/mesh-store/src/lib.rs:1438-1498 | the aggregate query never reports corruption; a fully linked unexpired message is `Delivered` exactly when none of its objects is in the outbox |
| StoreRuns.SummaryMeans | crates/mesh-store/src/lib.rs:1438-1498 | the summary counts the recorded pairs of object and target; an unexpired message is `Queued` exactly while there is none, `Delivered` exactly when every declared target confirmed through every declared audience, and `PartiallyDelivered` otherwise |
| StoreRuns.ApplyKeeps | crates/mesh-store/src/lib.rs:197-278 | every transaction keeps that invariant, and of objects it does not delete keeps mode, announcement, frame, delivery and receipt |
| TablesInvariant.CommitKeeps | crates/mesh-store/src/lib.rs:712-795 | a commit keeps the invariant: the new object is whole, in the outbox, linked within the totals and claimed by one reservation |
| TablesInvariant.PutChunkKeeps | crates/mesh-store/src/lib.rs:830-963 | one more chunk keeps the invariant: completing by row count is completing in fact, and custody frames stay bound and fixed |
| TablesInvariant.CountedChunks | crates/mesh-store/src/lib.rs:878-896 | counting as many chunk rows as the manifest names means that no index is missing |
| TablesInvariant.ConfirmedCount | crates/mesh-store/src/authenticated.rs:514-526 | the receipts counted are of distinct targets, and reach their number exactly when every target confirmed |
| TablesInvariant.FinalizeKeeps | crates/mesh-store/src/authenticated.rs:187-249 | the receive transaction keeps the invariant: delivery marker, receipt and complete flag stay in step |
| TablesInvariant.RecordTargetKeeps | crates/mesh-store/src/authenticated.rs:319-364 | recording a receipt keeps the outbox equal to the committed objects that some target has not confirmed |
| TablesInvariant.OriginAckKeeps | crates/mesh-store/src/authenticated.rs:409-466 | a stored acknowledgement is always of a receipt the origin holds, by its digest |
| TablesInvariant.RecordAckKeeps | crates/mesh-store/src/authenticated.rs:468-496 | a recorded acknowledgement is always of the receipt this member issued |
| TablesInvariant.DeleteKeeps | crates/mesh-store/src/lib.rs:1853-1888 | deleting any set of objects keeps the invariant and every row of the others |
| TablesInvariant.PruneKeeps | crates/mesh-store/src/lib.rs:197-253 | pruning keeps the invariant and every row of objects that stay |
| TablesInvariant.RollbackKeeps | crates/mesh-store/src/lib.rs:254-278 | rolling a message back keeps the invariant and every row of objects that stay |
| Effects.RecordReceiptEffect | crates/mesh-store/src/authenticated.rs:319-364 | a receipt is recorded exactly for a committed announced object of this member, by a target, under the live roster; then the actor’s row holds it unless there was one, the answer counts the confirmed targets, the outbox entry goes exactly when every target has a row, and no other row changes |
| Effects.PutChunkEffect | crates/mesh-store/src/lib.rs:830-963 | when a chunk is taken; it adds its row, and the one that makes a foreign object whole, and no other, puts it into relay custody with the frame and sender that came with it |
| Effects.CustodyIsQueued | crates/mesh-store/src/lib.rs:1061-1117 | such an object is then in the relay queue for as long as its frame and itself are unexpired |
| Effects.ReserveEffect | crates/mesh-store/src/lib.rs:646-701 | when a reservation succeeds, and the one row and number it adds |
| Effects.BeginEffect | crates/mesh-store/src/lib.rs:1381-1435 | when a message can begin, and the one row it adds |
| Effects.CommitEffect | crates/mesh-store/src/lib.rs:712-795 | a commit succeeds exactly for a matching reservation with room in the limits and a place in the message, or again for its own object; then the reservation, object, exactly its chunks, outbox entry, announcement and link are there, and no other row changes; it is never refused for a clash with stored rows |
| Effects.AnnounceEffect | crates/mesh-store/src/authenticated.rs:94-116 | when an announcement is taken, and the row and announcement it adds |
| Effects.StageChunkEffect | crates/mesh-store/src/authenticated.rs:130-163 | a staged chunk is stored and nothing is marked or delivered; the answer says whether the object is whole |
| Effects.FinalizeEffect | crates/mesh-store/src/authenticated.rs:187-249 | when a delivery is finalized; the first one writes marker, receipt and complete flag together, a later one answers with what the first wrote |
| Effects.RecordAckEffect | crates/mesh-store/src/authenticated.rs:468-496 | an acknowledgement is recorded exactly when it is addressed to this member and answers the receipt it issued |
| Effects.OriginAckEffect | crates/mesh-store/src/authenticated.rs:409-466 | the origin answers a held receipt with the stored acknowledgement while that verifies, else with a new one of that receipt, which it stores |
| Effects.RelayReceiptEffect | crates/mesh-store/src/lib.rs:1123-1186 | custody of a receipt: expired rows go, the others stay, this one is there; when it is refused |
| Effects.RelayAckEffect | crates/mesh-store/src/lib.rs:1258-1318 | the same for acknowledgements |
| Effects.PruneEffect | crates/mesh-store/src/lib.rs:197-253 | pruning takes away exactly the expired objects with all their rows, messages expired or without objects, reservations of no object, and expired custody |
| Effects.RollbackEffect | crates/mesh-store/src/lib.rs:254-278 | a rollback takes away exactly one message’s row, its objects with all their rows, and reservations of no object |
| Evidence.AnnouncementExact | crates/mesh-protocol/src/lib.rs:817-854 | an announcement is believed exactly when its named origin signed it for this group and epoch, its manifest is valid, and the live roster lists the origin and every target |
| Evidence.TargetReceiptExact | crates/mesh-store/src/authenticated.rs:309-318 | a receipt is evidence at a store exactly when the store has the object’s announcement, still believed, and every chunk, and the receipt verifies against it |
| Evidence.IssuedReceiptVerifies | crates/mesh-protocol/src/lib.rs:1345-1402 | the receipt that a target’s commit signed verifies at every later moment of the same live roster, whenever the target’s certificate was valid at signing |
| Evidence.VerifiedWasIssuable | crates/mesh-protocol/src/lib.rs:1195-1217 | a receipt that verifies is the very one that its actor’s commit under its listed key signs at the time it names |
| Evidence.IssuedAckVerifies | crates/mesh-protocol/src/lib.rs:1508-1525 | an acknowledgement issued by the origin names the receipt’s digest, object and actor and verifies while the roster lives |
| Evidence.FrameNamesSigner | crates/mesh-ffi-c/src/lib.rs:1090-1208 | a record under a frame of anybody but its signer, or a chunk of an unknown object, starts no transaction |
| Evidence.RelayAccepts | crates/mesh-ffi-c/src/lib.rs:1090-1208 | under a frame of its signer: the one transaction that each kind of record starts at a member that is neither its origin nor its addressee, and at the addressee |
| Stores.Store.Reserve | crates/mesh-store/src/lib.rs:646-701 | the same operation and command gives its row back, another command conflicts, a new one takes the next sequence; or the limit refuses it and nothing changes |
| Stores.Store.BeginLogicalMessage | crates/mesh-store/src/lib.rs:1381-1435 | range checks; the same totals again change nothing, other totals conflict, a new row otherwise |
| Stores.Store.CommitOutgoing | crates/mesh-store/src/lib.rs:712-795 | object, chunks, announcement, link, outbox row and operation result commit together or not at all, with the specified error for each refusal; a repeated commit returns its object |
| Stores.Store.AnnounceAuthenticated | crates/mesh-store/src/authenticated.rs:94-116 | the object row and its announcement, or the first refusal among roster, expiry, mode, unique slot and limits |
| Stores.Store.PutChunk | crates/mesh-store/src/lib.rs:830-963 | verified chunk, completion by counting rows, custody, frame and legacy delivery in one transaction, or the specified refusal; what that leaves in each table is Effects.PutChunkEffect |
| Stores.Store.FinalizeReceived | crates/mesh-store/src/authenticated.rs:187-249 | a loop over all chunk rows, then marker, receipt and complete flag at once; a second call returns the first receipt |
| Stores.Store.RecordTargetReceipt | crates/mesh-store/src/authenticated.rs:319-364 | the first receipt of an actor stays; the outbox row goes when all targets are counted; what that leaves in each table is Effects.RecordReceiptEffect |
| Stores.Store.OriginReceiptAck | crates/mesh-store/src/authenticated.rs:409-466 | an acknowledgement that still verifies is returned again, else a new one is signed and stored |
| Stores.Store.RecordReceiptAck | crates/mesh-store/src/authenticated.rs:468-496 | the first acknowledgement of this member’s own receipt stays; any other is refused |
| Stores.Store.PutRelayReceipt | crates/mesh-store/src/lib.rs:1123-1186 | bounded custody of receipts, expired rows dropped first |
| Stores.Store.PutRelayAck | crates/mesh-store/src/lib.rs:1258-1318 | bounded custody of acknowledgements, expired rows dropped first |
| Stores.Store.PruneExpired | crates/mesh-store/src/lib.rs:197-253 | deletes exactly the expired objects, stale messages, expired custody and unused reservations |
| Stores.Store.RollbackLogicalMessage | crates/mesh-store/src/lib.rs:254-278 | deletes exactly one message with its objects, and unused reservations |
| Stores.Store.LogicalDeliverySummary | crates/mesh-store/src/lib.rs:1438-1498 | computes the aggregate by a loop over the linked objects; changes nothing; what the aggregate means is StoreRuns.SummaryMeans |
| Stores.InsertManifestRow | crates/mesh-store/src/lib.rs:1906-1950 | a new object row by limits and unique (origin, sequence), or the right error |
| Stores.LinkLogicalObject | crates/mesh-store/src/lib.rs:1769-1831 | a link within the declared totals, or the right error |
| Stores.InsertChunks | crates/mesh-store/src/lib.rs:1952-1973 | all chunk rows of an object, or the error of the first that differs |
| Stores.DeleteAll | crates/mesh-store/src/lib.rs:1853-1888 | deleting objects one by one, table by table, deletes the rows of exactly those objects |
| Stores.DeleteTwice | crates/mesh-store/src/lib.rs:1853-1888 | the order of deletion does not matter |
| Enqueue.EnqueueText | crates/mesh-ffi-c/src/lib.rs:710-839 | outside `Attempts` the call is accepted exactly when the message is queued already and keeps all other tables; an attempt is accepted exactly when `Accepts` holds: the process lives through every transaction, there is somebody to address, and each draw in turn has a fresh operation, an envelope within 64 KiB and room in the limits under the live roster; then there is one linked object per audience, whose stored chunks join to that audience’s sealed envelope, with the text namespace, the roster’s epoch, hop limit 16, the drawn signature and the answered number of records; a refused attempt leaves exactly what rolling the message back leaves; a crash leaves some of the audiences in order, and a retry with the unchanged roster ends with one full set; exactly which outbox entries a call takes, and exactly when something of a refused message remains |
| Enqueue.QueueAudiences | crates/mesh-ffi-c/src/lib.rs:763-826 | the per-audience loop: after each round the message’s objects are those of the first audiences, each with what was sealed for it; accepted exactly when every audience can be queued in turn |
| Enqueue.CommitAudience | crates/mesh-ffi-c/src/lib.rs:768-820 | one audience: reservation, sealing and commit; accepted exactly when it can be queued after the ones before it, and then its object carries the drawn envelope and signature |
| Enqueue.RollbackTraceless | crates/mesh-store/src/lib.rs:254-278 | after a rollback no row of any table, receipts, deliveries, relay custody and reservations included, belongs to the message or its objects |
| Enqueue.RollbackSparesOthers | crates/mesh-store/src/lib.rs:254-278 | objects and rows of other messages are as before |
| Enqueue.FullReachesRoster | crates/mesh-ffi-c/src/lib.rs:746-826 | a queued message names every other member in exactly one object, nobody else, 1 to 10 targets each |
| Enqueue.CompleteIsFull | crates/mesh-ffi-c/src/lib.rs:730-741 | a summary that counts every audience means every audience is there |
| Enqueue.PrunePartial | crates/mesh-ffi-c/src/lib.rs:722-729 | pruning removes an expired attempt whole and leaves a live one as it is |
| Enqueue.UsedOperationFails | crates/mesh-ffi-c/src/lib.rs:780-812 | an operation that was drawn before cannot commit another audience |
| Enqueue.OtherSizeRefused | crates/mesh-ffi-c/src/lib.rs:746-766 | a live stored message of another size is neither attempted nor taken as queued already |
| Enqueue.OldMessageInv | crates/mesh-ffi-c/src/lib.rs:746-766 | that store satisfies the whole store invariant |
| Enqueue.RefusedCallKeepsMessage | crates/mesh-ffi-c/src/lib.rs:746-766 | on a concrete store that meets the invariant a call is refused and every row of the older message of that identifier is still there |
| Rosters.AudiencesPartition | crates/mesh-replication/src/lib.rs:42-58 | the audiences are the sorted roster without the origin, cut in order into nonempty groups of at most ten |
| Rosters.SortedUnique | crates/mesh-replication/src/lib.rs:42-58 | a strictly increasing roster is determined by its members |
| Rosters.SortedStrictly | crates/mesh-replication/src/lib.rs:42-58 | sorting gives a strictly increasing roster exactly when it has no duplicate |
| Objects.FromOpaqueExact | crates/mesh-object/src/lib.rs:37-61 | an envelope is accepted exactly when nonempty, within 64 KiB and with a policy in range; its chunks then join to it and match the manifest, which states its length |
| Draining.OutboxRecord | crates/mesh-ffi-c/src/lib.rs:910-970 | the slot loop gives the record at that position of the listing, with every error case |
| Draining.ListingExists | crates/mesh-store/src/lib.rs:967-984 | every store has a listing: its live outbox objects, each once, in creation order |
| Draining.DrainExact | crates/mesh-ffi-c/src/lib.rs:910-970 | slots 0, 1, 2, … list for every live outbox object, and no other, its announcement and then its chunks in index order, each once; the first empty answer follows the last; a slot is an error exactly when its stored announcement no longer verifies |
| Draining.ChunksNeverFail | crates/mesh-store/src/lib.rs:967-984 | every chunk of a live outbox object is stored and genuine |
| Draining.SlotsReachAll | crates/mesh-ffi-c/src/lib.rs:910-927 | 16-bit slots reach every record exactly when there are at most 65536 |
| Draining.StoreOutgrowsSlots | crates/mesh-store/src/lib.rs:163-175 | a store of 3856 sealed objects, within the default limits and meeting the invariant, with a listed record that no 16-bit slot gives |
| Envelopes.EnvelopeFits | crates/mesh-protocol/src/lib.rs:1004-1092 | whatever the sealer accepts gives an envelope of at most 64 KiB |
| Envelopes.SealedExample | crates/mesh-protocol/src/lib.rs:1004-1092 | a message of 15 KiB seals to an envelope of more than 15 KiB and at most 17100 bytes |
| Envelopes.AnnouncementFits | crates/mesh-protocol/src/lib.rs:181-187 | every signed announcement of a valid manifest is within its record limit |
| Envelopes.RecordsEncode | crates/mesh-ffi-c/src/lib.rs:932-962 | the announcement and every chunk record encode, each within 4096 bytes |
| Simulator.FloodMessage | crates/mesh-sim/src/lib.rs:146-200 | for any symmetric graph and any partition time the queue loop ends; a copy comes too late only when the partition outlasts the frames, and then always if it cuts off a neighbour of the origin; otherwise each node but the origin that the message reaches forwards it exactly once, the result is an error exactly when a node is missed, deliveries, hop-limit drops and duplicates are exact, the duplicates by the degrees of the forwarders, the farthest hop is attained, and deferrals are zero without a partition |
| Simulator.FloodIsShortestPaths | crates/mesh-sim/src/lib.rs:146-200 | with no partition every node but the origin forwards exactly once, with a hop count equal to its graph distance |
| Simulator.RegularCopies | crates/mesh-sim/src/lib.rs:146-200 | on a graph of one degree the copies sent are fixed by the number of forwarders |
| Simulator.ConnectedReachesAll | crates/mesh-sim/src/lib.rs:164-198 | without hop-limit drops the delivered set is every node but the origin |
| Simulator.FeasibleReachesAll | crates/mesh-sim/src/lib.rs:164-198 | any schedule within the hop budget reaches every node |
| Flooding.DistanceIsShortest | crates/mesh-sim/src/lib.rs:146-200 | a distance function is the length of the shortest path |
| Flooding.DistanceExists | crates/mesh-sim/src/lib.rs:146-200 | every connected graph has one |
| Topology.RunRelayTopologyWithPartition | crates/mesh-sim/src/lib.rs:97-200 | for any partition time: within its limits the simulator returns an error exactly when the partition lasts until frame expiry (10000) or longer, and always the one of a late copy; else all members are reached, no copy is lost to the hop limit, the duplicate count is fixed by the topology, and the farthest hop is at most one beyond the diameter |
| Topology.RunRelayTopology | crates/mesh-sim/src/lib.rs:82-89 | with no partition deliveries, duplicates, hop-limit drops, deferrals and the farthest hop are determined |
| Topology.RunRelayPartitionReunion | crates/mesh-sim/src/lib.rs:90-96 | a partition that heals at attempt 6 loses nothing and costs at most one hop |
| Topology.BuildOverlay | crates/mesh-sim/src/lib.rs:109-127 | builds exactly the overlay’s adjacency, ascending and of degree three |
| Topology.EarlyNeighbor | crates/mesh-sim/src/lib.rs:164-171 | a partition may defer a copy once; some neighbour is early enough all the same |
| RelayCaches.RelayCache.Accept | crates/mesh-replication/src/lib.rs:242-267 | the decision and the new map, every refusal included |
| RelayCaches.RelayCache.FindOldest | crates/mesh-replication/src/lib.rs:218-240 | the scan finds the entry with the earliest expiry, then earliest receipt |
| RelayCaches.AcceptBounded | crates/mesh-replication/src/lib.rs:214-267 | never more than 512 entries; a forward adds exactly one hop and names this relay |
| RelayCaches.ForwardExact | crates/mesh-replication/src/lib.rs:201-267 | a relay forwards exactly the frames that are unexpired, have a hop left, name the neighbour they came from and neither started at it nor came from itself, unless it remembers their key; it calls exactly the others of these duplicates |
| RelayCaches.PathForwards | crates/mesh-replication/src/lib.rs:242-267 | along any path of relays a frame is forwarded by exactly as many as it has hops left, each naming itself and one more hop; the next one answers that none is left |
| RelayCaches.RunBounded | crates/mesh-replication/src/lib.rs:214-240 | no run ever fills the cache beyond 512 entries |
| RelayCaches.BoundedRunAgrees | crates/mesh-replication/src/lib.rs:214-267 | on a nondecreasing clock with at most 512 unexpired keys at once, the bounded cache decides a whole run as a cache that never forgets |
| RelayCaches.CapacityExact | crates/mesh-replication/src/lib.rs:214-267 | on a nondecreasing clock the cache agrees with one that never forgets after every offer exactly when never more than 512 keys are unexpired |
| RelayCaches.ForwardedAtMostOnce | crates/mesh-replication/src/lib.rs:242-267 | there, with one expiry per key, no key is forwarded twice |
| RelayCaches.OverflowForwardsAgain | crates/mesh-replication/src/lib.rs:218-240 | beyond that capacity an evicted live key is forwarded again |
| RelayCaches.OverflowForwardsTwice | crates/mesh-replication/src/lib.rs:218-240 | a run of 513 live keys and the first of them again, on a nondecreasing clock with one expiry per key, forwards that key twice |
| Overlay.LinksAreMutual | crates/mesh-replication/src/lib.rs:423-454 | both ends of a planned link plan it, for every roster |
| Overlay.PlanIgnoresOrder | crates/mesh-replication/src/lib.rs:423-454 | the plan does not depend on the order of the roster |
| Overlay.PlanDefined | crates/mesh-replication/src/lib.rs:423-440 | a plan is refused exactly for an empty, oversized or repeating roster, or a stranger |
| Overlay.LinkedIsAdjacent | crates/mesh-replication/src/lib.rs:423-454 | planned links are the ring and, for even n >= 4, the opposite member |
| Overlay.HopsIsDistance | crates/mesh-replication/src/lib.rs:423-454 | closed form of the graph distance in the even overlay |
| Overlay.OverlayDiameter | crates/mesh-replication/src/lib.rs:423-454 | the diameter of the even overlay is (n + 2) / 4, reached from every position |
| Overlay.MembersWithinDiameter | crates/mesh-replication/src/lib.rs:423-454 | any two members of an even roster are within (n + 2) / 4 planned links, 13 at 50 members, at exactly the distance Hops |
| Overlay.OverlayExists | crates/mesh-replication/src/lib.rs:423-454 | every size has an overlay adjacency |
| Overlay.OverlayConnected | crates/mesh-replication/src/lib.rs:423-454 | every roster’s overlay is connected, odd sizes included |
| Replays.Replay.Check | crates/mesh-session/src/lib.rs:228-238 | passes exactly the numbers never accepted and less than 64 behind the highest |
| Replays.Replay.Accept | crates/mesh-session/src/lib.rs:239-255 | bit d is set exactly when highest − d was accepted, for all 64 bits |
| Replays.NeverTwice | crates/mesh-session/src/lib.rs:222-256 | no number is accepted twice |
| Replays.AcceptedWhenNear | crates/mesh-session/src/lib.rs:222-256 | a new number within 64 of everything before is accepted in any order |
| Replays.Offer | crates/mesh-session/src/lib.rs:222-256 | the 64-bit window answers a whole run as the unbounded set does |
| Words.ShiftLeftBits | crates/mesh-session/src/lib.rs:239-255 | what a left shift does to each bit of a 64-bit word |
| Words.SetBitOnly | crates/mesh-session/src/lib.rs:239-255 | setting a bit sets that bit and no other |
| Sessions.Session.Authenticate | crates/mesh-session/src/lib.rs:292-343 | proof on number 0, once, with the certified key; the roster and expiry checks may close the session |
| Sessions.Session.Send | crates/mesh-session/src/lib.rs:292-361 | refusals by phase, size and exhaustion; the number is consumed before the frame is made; that the frame holds the whole payload is SessionRuns.DeliveredWasGiven and GivenArrives |
| Sessions.Session.Receive | crates/mesh-session/src/lib.rs:362-425 | every branch of framing, window, opening, proof and data; the window moves only for an opened packet |
| SessionRuns.NumbersNeverReused | crates/mesh-session/src/lib.rs:306-361 | numbers of one sender strictly increase, the proof on 0 included |
| SessionRuns.DeliveredWasSentOnce | crates/mesh-session/src/lib.rs:362-425 | each delivered payload was sent by the peer under that number, and none is delivered twice |
| SessionRuns.DeliveredAfterBothProofs | crates/mesh-session/src/lib.rs:362-425 | nothing is delivered before both proofs |
| SessionRuns.ClosedIsFinal | crates/mesh-session/src/lib.rs:288-305 | a closed endpoint stays closed, sends and delivers nothing |
| SessionRuns.DeliveredExactly | crates/mesh-session/src/lib.rs:362-425 | a genuine packet is delivered exactly when the session is live and authenticated and the number new and in the window |
| SessionRuns.DeliveredWasGiven | crates/mesh-session/src/lib.rs:344-425 | over every run each delivered payload is the one that the peer’s host handed to `send` under that number |
| SessionRuns.GivenArrives | crates/mesh-session/src/lib.rs:344-425 | between two authenticated live endpoints every payload in bounds is taken under the next number and, offered to the other side, is handed to its host whole |
| SessionRuns.PeerIsTheOther | crates/mesh-session/src/lib.rs:362-400 | in every run an endpoint’s authenticated peer is the member at the other end |
| SessionRuns.HandshakeCompletes | crates/mesh-session/src/lib.rs:319-400 | two new endpoints that prove themselves with the keys the live roster lists, and receive each other’s proof, are both authenticated with each other as peer |
| SessionRuns.RefusedCallCloses | crates/mesh-session/src/lib.rs:292-305 | a call on a session that is not open, before its start, past its deadline, or under another or lapsed roster sends and delivers nothing and leaves the session closed |
| Cbor.HeadParses | crates/mesh-codec/src/canonical.rs:6-24 | a printed head parses back, whatever follows |
| Cbor.ParsedIsHead | crates/mesh-codec/src/canonical.rs:59-83 | only the shortest head is accepted |
| Cbor.ItemUnique | crates/mesh-codec/src/canonical.rs:25-38 | items are prefix-free |
| Cbor.PrintUnique | crates/mesh-codec/src/canonical.rs:25-41 | no two lists of items share their bytes |
| Cbor.Writer.WriteHead | crates/mesh-codec/src/canonical.rs:6-24 | appends exactly the head |
| Cbor.Reader.Value | crates/mesh-codec/src/canonical.rs:59-83 | the byte loop computes the head parse, every refusal included |
| Cbor.Reader.ReadString | crates/mesh-codec/src/canonical.rs:100-115 | a string of the given kind within the bound, read exactly; every readable one is read |
| Cbor.ReadFields | crates/mesh-codec/src/canonical.rs:84-126 | what is read is a list of fields of the given kinds, consumed exactly; a list that the input goes on with is read |
| ManifestCodec.Encode | crates/mesh-object/src/lib.rs:136-154 | pushing the fields in order gives the encoding that the decoder accepts |
| ManifestCodec.Decode | crates/mesh-object/src/lib.rs:155-205 | accepts exactly the encodings of valid manifests, each as that manifest |
| ManifestCodec.EncodingUnique | crates/mesh-object/src/lib.rs:136-205 | no two manifests share their bytes |
| ManifestCodec.EncodingFits | crates/mesh-object/src/lib.rs:155-160 | every valid manifest is within the decoder’s limit |
| PolicyCodec.Encode | crates/mesh-protocol/src/lib.rs:405-441 | refuses exactly invalid bundles, else prints the one encoding |
| PolicyCodec.Decode | crates/mesh-protocol/src/lib.rs:442-470 | accepts exactly the encodings of valid bundles |
| PolicyCodec.EncodingFits | crates/mesh-protocol/src/lib.rs:405-441 | every valid bundle is within 64 KiB |
| HandoffCodec.Encode | crates/mesh-protocol/src/lib.rs:488-527 | refuses exactly invalid handoffs, else prints the one encoding |
| HandoffCodec.Decode | crates/mesh-protocol/src/lib.rs:528-548 | accepts exactly the encodings of valid handoffs, signed body included |
| HandoffCodec.EncodingFits | crates/mesh-protocol/src/lib.rs:519-527 | every handoff is within 512 bytes |
| HeaderCodec.Encode | crates/mesh-protocol/src/lib.rs:876-899 | writing the fields in order gives the encoding that the decoder accepts |
| HeaderCodec.Decode | crates/mesh-protocol/src/lib.rs:900-950 | accepts exactly the encodings of valid headers |
| HeaderCodec.EncodingUnique | crates/mesh-protocol/src/lib.rs:876-950 | no two headers share their bytes |
| HeaderCodec.EncodingFits | crates/mesh-protocol/src/lib.rs:900-905 | every valid header is within the decoder’s limit |
| RecordCodec.RecordDecodedPrints | crates/mesh-protocol/src/lib.rs:93-146 | what a durable record decodes from, it encodes to |
| RecordCodec.RecordEncodedParses | crates/mesh-protocol/src/lib.rs:48-92 | a record that encodes is within the limit and decodes to itself |
| RecordCodec.FrameRoundTrip | crates/mesh-replication/src/lib.rs:89-134 | frame bytes and valid frames correspond one to one |
| RecordCodec.RoutedRoundTrip | crates/mesh-replication/src/lib.rs:144-166 | routed bytes decode to a record exactly when they are its encoding and its frame is valid |
| RecordCodec.RoutedFits | crates/mesh-replication/src/lib.rs:22-30 | a routed record that encodes is within 4096 bytes |
| RecordCodec.RecordLayout | crates/mesh-protocol/src/lib.rs:48-92 | the place of magic, version, tag, object, index, length and content in every kind of record, and exactly which records encode |
| RecordCodec.FrameLayout | crates/mesh-replication/src/lib.rs:89-100 | the place of every field of a frame, numbers with the highest byte first |
| RecordCodec.RoutedLayout | crates/mesh-replication/src/lib.rs:144-153 | a routed record is magic, version, frame and record |
| Schemas.HeadBytes | crates/mesh-codec/src/canonical.rs:6-24 | a head is its major type and form in one byte, and then the number in 0, 1, 2, 4 or 8 bytes, the highest first |
| Schemas.ManifestSchema | schema/store/manifest-v1.cddl:2-5 | a manifest is encoded as the canonical bytes of its schema’s array, field for field |
| Schemas.HeaderSchema | schema/protocol/lab-v1.cddl:16-20 | an envelope header is encoded as the canonical bytes of its schema’s array, field for field |
| Schemas.PolicySchema | crates/mesh-protocol/src/lib.rs:405-441 | a policy bundle is the array of version, authority, group, epoch, certificates and revocations |
| Schemas.HandoffSchema | crates/mesh-protocol/src/lib.rs:488-527 | a handoff is the pair of its signed body, field for field, and the signature |
| Schemas.RequestSchema | schema/api/foundation.cddl:2 | a request is the array of version, method and argument |
| Schemas.SnapshotSchema | schema/api/foundation.cddl:5-7 | an answer is version, method and the list of runtime, cursor, probes, state, reset and events |
| Schemas.ManifestVector | vectors/store/manifest-v1.hex:1 | the published manifest, whatever its chunk’s digest is, has the published bytes |
| Schemas.HeaderVector | vectors/protocol/header-v1.hex:1 | the published envelope header has the published bytes |
| Schemas.VerifyVector | vectors/api/foundation.json:1 | the published bridge request is read as that request |
| Schemas.SnapshotVector | vectors/api/foundation.json:1 | the published snapshot has the published bytes |
| Schemas.InvalidVectors | vectors/api/foundation.json:1 | the published overlong and trailing inputs are refused |
| Policies.VerifyRoster | crates/mesh-protocol/src/lib.rs:667-751 | the loop with its sets of keys and serials: a roster, or the error of the first refused certificate; exactly when it is a roster is Policies.VerifyExact |
| Policies.AdmitAllExact | crates/mesh-protocol/src/lib.rs:690-735 | certificates are admitted exactly when each stands on its own and no two share a member, key or serial; the roster depends only on which they are |
| Policies.VerifyExact | crates/mesh-protocol/src/lib.rs:667-751 | verification succeeds exactly when the bounds hold, every certificate parses, is signed by this authority for this group and epoch, is in range, in its time and not revoked, and no two share a member, key or serial |
| Policies.MembersStand | crates/mesh-protocol/src/lib.rs:690-735 | no member of a verified roster is revoked, out of its time, of another group or certified by anybody else |
| Policies.RosterIs | crates/mesh-protocol/src/lib.rs:690-751 | the members are those of the certificates, each under its own, and the roster is valid exactly while all of them are |
| Policies.DigestExact | crates/mesh-protocol/src/lib.rs:736-751 | two verified rosters have one digest exactly when authority, scope, the set of certificates and the set of revocations agree |
| Policies.VerifyIgnoresOrder | crates/mesh-protocol/src/lib.rs:667-751 | a verified roster depends on neither certificate nor revocation order |
| Policies.DigestIsTimeless | crates/mesh-protocol/src/lib.rs:736-751 | the digest does not depend on the time of verification |
| PolicyHistory.VerifyForExact | crates/mesh-protocol/src/lib.rs:552-569 | a handoff verifies exactly when the pinned authority signed it for the pinned scope, digest and the next epoch |
| PolicyHistory.PolicyTable.InstallWithTransition | crates/mesh-store/src/lib.rs:1568-1663 | checks in order, then the new tables; a conflict at the same or a lower epoch, or an authority change without its handoff, changes nothing |
| PolicyHistory.PolicyTable.InstallRotatedPolicy | crates/mesh-store/src/lib.rs:1539-1567 | checks the handoff against the stored policy, then installs with it as the permitted transition |
| PolicyHistory.PolicyTable.ActivePolicy | crates/mesh-store/src/lib.rs:1664-1716 | re-verifies what is stored: nothing, the pinned snapshot, or why not |
| PolicyHistory.ChangeStep | crates/mesh-store/src/lib.rs:1539-1663 | one install keeps the group; keeps authority and digest at the same epoch; changes the authority only to exactly epoch + 1 under a valid handoff |
| PolicyHistory.InstallExact | crates/mesh-store/src/lib.rs:1568-1663 | an install succeeds exactly for a roster that may be made, names this member and may follow what is pinned; then the new policy is pinned with its certificates and revocations; otherwise nothing changes |
| PolicyHistory.RotationExact | crates/mesh-store/src/lib.rs:1539-1567 | a rotation succeeds exactly when the pinned policy still verifies, its authority endorsed exactly this successor, and the install does |
| PolicyHistory.PinnedNamesMember | crates/mesh-store/src/lib.rs:1568-1663 | in every history the certificates of the pinned policy name this member |
| PolicyHistory.EveryChangeSucceeds | crates/mesh-store/src/lib.rs:1539-1663 | the same for every install of every history |
| PolicyHistory.HistoryIsMonotone | crates/mesh-store/src/lib.rs:1539-1663 | over any history the group never changes, the epoch never decreases, one epoch has one authority and digest |
| PolicyHistory.ActiveNeverCorrupt | crates/mesh-store/src/lib.rs:1664-1716 | re-reading a stored policy never contradicts its stored digest |
| DurableSends.StepSound | crates/mesh-runtime/src/durable.rs:192-338 | every call keeps distinct tokens below the next one and the phase data; refused calls change nothing; pending goes up exactly for a start with an effect and down exactly for an event |
| DurableSends.RunConserves | crates/mesh-runtime/src/durable.rs:192-338 | over any calls, starts with an effect = terminal events + pending operations, at most eight are pending, and no two effects share a token |
| DurableSends.ProtectedForRequest | crates/mesh-runtime/src/durable.rs:277-300 | for every request that exists, whatever envelope within 64 KiB protects it becomes an object that matches the request |
| DurableSends.RequestIgnoresOrder | crates/mesh-runtime/src/durable.rs:17-44 | a request does not depend on the order its targets were given in |
| DurableSends.TakenSpends | crates/mesh-runtime/src/durable.rs:176-182 | a result that is taken spends its token |
| DurableSends.UnawaitedRefused | crates/mesh-runtime/src/durable.rs:176-182 | a result nobody waits for in that phase is refused and changes nothing |
| DurableSends.SpentForever | crates/mesh-runtime/src/durable.rs:165-182 | a spent token is refused for ever |
| DurableSends.AcceptedMatches | crates/mesh-runtime/src/durable.rs:277-330 | after a commit the accepted object is the one whose manifest matched the pending operation’s origin, sequence and policy |
| DurableSends.AcceptedWasRequested | crates/mesh-runtime/src/durable.rs:192-330 | over any calls, an object accepted after a commit matches the policy of a request that started its operation earlier |
| DurableSends.EffectsRequested | crates/mesh-runtime/src/durable.rs:192-338 | over any calls, everything the host is asked to reserve, protect or commit is what some call asked to send, unaltered |
| DurableSends.SendCompletes | crates/mesh-runtime/src/durable.rs:192-330 | a host that does as it is asked is asked to reserve, protect and commit exactly this request, and then has it accepted, whatever else is pending |
| DurableSends.SendEnds | crates/mesh-runtime/src/durable.rs:234-338 | what ends an operation early: an object committed before, expiry, a failure; and what conflicts |
| DurableSends.StartAgain | crates/mesh-runtime/src/durable.rs:192-233 | a pending operation started again is quiet for the same policy and text and a conflict for any other; a ninth one is pressure |
| DurableSends.DurableSender.Start | crates/mesh-runtime/src/durable.rs:192-233 | a pending equal request is quiet, a different one conflicts, a ninth or a spent counter is pressure; else one Reserve effect under a fresh token |
| DurableSends.DurableSender.Reserved | crates/mesh-runtime/src/durable.rs:234-276 | an object already committed is accepted, an expired request ends, else Protect with the held request under a fresh token |
| DurableSends.DurableSender.Protected | crates/mesh-runtime/src/durable.rs:277-319 | a manifest of another request conflicts, an expired one ends, else Commit expecting exactly that object |
| DurableSends.DurableSender.Committed | crates/mesh-runtime/src/durable.rs:320-330 | accepted only for the expected object; ends the operation |
| DurableSends.DurableSender.Failed | crates/mesh-runtime/src/durable.rs:331-338 | any phase ends with one retry event; a stale token conflicts |
| DurableReceives.StepSound | crates/mesh-runtime/src/reception.rs:102-203 | every call keeps distinct tokens below the next one; refused calls change nothing; pending goes up exactly for a start with an effect and down exactly for an event; a taken result spends its token |
| DurableReceives.RunConserves | crates/mesh-runtime/src/reception.rs:102-203 | starts = terminal events + pending, at most eight pending, fresh tokens |
| DurableReceives.TakenOnce | crates/mesh-runtime/src/reception.rs:92-98 | a taken result is refused for ever after |
| DurableReceives.UnawaitedRefused | crates/mesh-runtime/src/reception.rs:92-98 | a result nobody waits for is refused and changes nothing |
| DurableReceives.ReceivedIsAwaited | crates/mesh-runtime/src/reception.rs:123-191 | the object reported as received is the one awaited under this token |
| DurableReceives.ReceiveCompletes | crates/mesh-runtime/src/reception.rs:102-191 | a host that does as it is asked inspects, verifies and commits exactly this object’s proof and has it reported once, whatever else is pending |
| DurableReceives.ReceiveEnds | crates/mesh-runtime/src/reception.rs:123-203 | what ends a reception early and what conflicts |
| DurableReceives.DurableReceiver.Start | crates/mesh-runtime/src/reception.rs:102-122 | a pending object is quiet, a ninth or a spent counter is pressure; else Inspect under a fresh token |
| DurableReceives.DurableReceiver.Inspected | crates/mesh-runtime/src/reception.rs:123-147 | a committed receipt of this object ends it, of another conflicts; else Verify under a fresh token |
| DurableReceives.DurableReceiver.Verified | crates/mesh-runtime/src/reception.rs:148-173 | a proof of another object or member conflicts; else Commit under a fresh token |
| DurableReceives.DurableReceiver.Committed | crates/mesh-runtime/src/reception.rs:174-191 | received only for the awaited object |
| DurableReceives.DurableReceiver.Failed | crates/mesh-runtime/src/reception.rs:192-203 | any phase ends with one retry event; a stale token conflicts |
| EventLogs.RunShows | crates/mesh-runtime/src/lib.rs:42-66 | after any requests the ring is the last 64 events of the full history those requests make |
| EventLogs.SubscribeExact | crates/mesh-runtime/src/lib.rs:20-41 | a subscription returns exactly events c + 1 to the last, or resets exactly when the cursor is ahead or more than 64 behind |
| EventLogs.VerifyExact | crates/mesh-runtime/src/lib.rs:42-66 | the four answers to a request; running out of numbers is unreachable |
| EventLogs.VerifyTwice | crates/mesh-runtime/src/lib.rs:47-52 | a repeated request changes nothing and makes no second event |
| EventLogs.FollowerNeverSkips | crates/mesh-runtime/src/lib.rs:20-66 | a client that keeps subscribing holds a gapless stretch of the history |
| EventLogs.Runtime.Subscribe | crates/mesh-runtime/src/lib.rs:20-41 | the exact subscription, on the object |
| EventLogs.Runtime.VerifyBridge | crates/mesh-runtime/src/lib.rs:42-66 | sequence, last request and ring after the request, and its answer; related to the full history by VerifyExact |
| SnapshotCodec.EncodeSnapshot | crates/mesh-codec/src/lib.rs:89-106 | writes exactly the encoding |
| SnapshotCodec.DecodedExact | platforms/mesh_host/ios/mesh_host/Sources/mesh_host/MeshEnvelope.swift:61-78 | the strict decoder accepts bytes as a snapshot exactly when it is well formed and the bytes are its encoding |
| SnapshotCodec.AnswersDecode | crates/mesh-codec/src/lib.rs:89-106 | every answer of a runtime, after any requests, is accepted by the strict decoder and decodes to the same snapshot |
| HostEnvelopes.Envelope.Value | platforms/mesh_host/ios/mesh_host/Sources/mesh_host/MeshEnvelope.swift:23-39 | one bounded shortest head at the offset |
| HostEnvelopes.Envelope.ReadEvents | platforms/mesh_host/ios/mesh_host/Sources/mesh_host/MeshEnvelope.swift:66-75 | the event loop with its consecutive-number check |
| HostEnvelopes.Envelope.ReadSnapshot | platforms/mesh_host/ios/mesh_host/Sources/mesh_host/MeshEnvelope.swift:61-78 | the decoder as it runs is the strict decoding |
| HostEnvelopes.Request | platforms/mesh_host/ios/mesh_host/Sources/mesh_host/MeshEnvelope.swift:79-94 | the host writes the one encoding of a request, or refuses it |
| HostEnvelopes.DecodeRequest | crates/mesh-codec/src/lib.rs:4-47 | the pass over the bytes computes the request decoding |
| HostEnvelopes.RequestExact | crates/mesh-codec/src/lib.rs:4-26 | a request decodes to a command exactly when it is that command’s encoding |
| HostEnvelopes.VersionExact | crates/mesh-codec/src/lib.rs:15-20 | another version is named exactly for otherwise readable input |
| HostEnvelopes.RequestsUnderstood | crates/mesh-codec/src/lib.rs:4-26 | what the host sends is understood as meant, or refused exactly when it names no command |
| BleSegmentation.SplitsAgree | platforms/mesh_host/android/src/main/kotlin/com/frazko/mesh_host/BleFrameCodec.kt:11-20 | Swift and Kotlin cut every frame into the same fragments for every write size |
| BleSegmentation.FragmentLayout | platforms/mesh_host/ios/mesh_host/Sources/mesh_host/BleFrameCodec.swift:11-23 | fragment k is marker, first and last flag, the whole length and the part of the frame from k payloads on; there are as many as the frame needs |
| BleSegmentation.FrameArrives | platforms/mesh_host/ios/mesh_host/Sources/mesh_host/BleFrameCodec.swift:11-43 | from any state, the fragments of a frame in order give nothing until the last and then exactly the frame, and leave the assembler idle |
| BleSegmentation.AssemblerExact | platforms/mesh_host/ios/mesh_host/Sources/mesh_host/BleFrameCodec.swift:24-43 | for any fragments whatever, a record comes out exactly when the last fragments are one unbroken group that joins to it |
| BleSegmentation.Assembler.Accept | platforms/mesh_host/ios/mesh_host/Sources/mesh_host/BleFrameCodec.swift:29-41 | the assembler in place computes the specified step |

## Left out

- NetworkSafety.OutboxRetires: an outbox entry also leaves by expiry, or by rollback while its message lacks an audience; NetworkMessages.FullMessageRetires is the statement without rollback.
- Enqueue.EnqueueText: one member's calls are sequential; records, seeds and random bytes are drawn from an argument, and the codes of the foreign interface are folded into four errors.
- Draining.OutboxRecord: the order among messages of equal creation time is any fixed one, because ideal digests are not ordered, so the listing is an argument; so are the relay identifiers, which are digests too; the record is not encoded here, which Envelopes.RecordsEncode covers.
- HostEnvelopes.Envelope.ReadSnapshot: the guards after each group of numbers are checked once the group is read; every failure is the same error.
- BleSegmentation.SplitsAgree: a write size within four of the least machine integer overflows in the source; the model's sizes are unbounded.
- Simulator.FloodMessage: the queue high-water mark, and the number of deferrals under a partition, are not determined; the message is one of the first 512 of its campaign, which has at most 32.
- Overlay.OverlayDiameter: even rosters only; odd ones have no chord and no such bound.
- Policies.VerifyRoster: certificates are values that parse or do not; their own bytes are not modelled.
- Sessions.Session.Receive: the frame layout is a datatype; its bytes are not modelled.
- Network steps are single transactions of one store; the prune that a finalize call performs first is a host step of its own, and the unauthenticated `announce` is not offered to hosts.
- Cryptographic primitives, key handling and the handshake: library code.
- SQLCipher opening, schema migration, fault hooks and real I/O failure.
- `extern "C"` wrappers, handle registries, panic guards and buffer ownership.
- Swift and Kotlin radio adapters, key stores, audio, user interface and Python tools.
- The Kotlin envelope decoder and assembler, which repeat the Swift ones; only the Kotlin split is modelled beside the Swift one.
- The random storage scenario of the simulator, transport selection, presence and link framing: easy beside the rest.
- The relay drain (`secure_store_relay_record`): it lists the records of one object as the outbox drain does.
- UTF-8 checking of text fields, which the namespace's character check already implies.
