/**
 * What each transaction does, row by row and for every outcome: when it succeeds, which row it adds, and that nothing else changes.
 * Stated on the tables alone, so that these hold or fail without looking at how a transaction is computed.
 */
module Effects {
  import opened Types
  import opened Sums
  import opened Protocol
  import opened Tables
  import opened TablesInvariant
  import opened StoreRuns

  datatype Table =
    | Sequence | Operations | Objects | Chunks | Outbox | RelayOutbox | RelayFrameRows | LocalDeliveries | Announcements | Deliveries
    | TargetReceipts | OriginAcks | Acknowledgements | RelayReceipts | RelayAcks | Messages | Links

  /** Every table but these is as it was. */
  predicate OnlyTouches(db: Db, db': Db, tables: set<Table>) {
    && (Sequence in tables || db'.nextSequence == db.nextSequence)
    && (Operations in tables || db'.operations == db.operations)
    && (Objects in tables || db'.objects == db.objects)
    && (Chunks in tables || db'.chunks == db.chunks)
    && (Outbox in tables || db'.outbox == db.outbox)
    && (RelayOutbox in tables || db'.relayOutbox == db.relayOutbox)
    && (RelayFrameRows in tables || db'.relayMetadata == db.relayMetadata)
    && (LocalDeliveries in tables || db'.localDeliveries == db.localDeliveries)
    && (Announcements in tables || db'.announcements == db.announcements)
    && (Deliveries in tables || db'.deliveries == db.deliveries)
    && (TargetReceipts in tables || db'.targetReceipts == db.targetReceipts)
    && (OriginAcks in tables || db'.originAcks == db.originAcks)
    && (Acknowledgements in tables || db'.acknowledged == db.acknowledged)
    && (RelayReceipts in tables || db'.relayReceipts == db.relayReceipts)
    && (RelayAcks in tables || db'.relayAcks == db.relayAcks)
    && (Messages in tables || db'.logical == db.logical)
    && (Links in tables || db'.links == db.links)
  }

  /** Every row but this key's is as it was. */
  ghost predicate SameBut<K(!new), V>(rows: map<K, V>, rows': map<K, V>, key: K) {
    forall k :: k != key ==> (k in rows' <==> k in rows) && (k in rows ==> rows'[k] == rows[k])
  }

  /** The key has this value now, whatever it had. */
  ghost predicate Sets<K(!new), V>(rows: map<K, V>, rows': map<K, V>, key: K, value: V) {
    key in rows' && rows'[key] == value && SameBut(rows, rows', key)
  }

  /** The key has its old value if it had one, and this one otherwise. */
  ghost predicate Gains<K(!new), V>(rows: map<K, V>, rows': map<K, V>, key: K, value: V) {
    Sets(rows, rows', key, if key in rows then rows[key] else value)
  }

  lemma GainsInserted<K(!new), V>(rows: map<K, V>, key: K, value: V)
    ensures Gains(rows, InsertOrIgnore(rows, key, value), key, value)
  {
  }

  predicate LiveAt(expiresAt: nat, now: nat) { now <= MAX_LOGICAL_TIME && now < expiresAt }

  predicate RosterLive(roster: Roster, now: nat) { now <= MAX_LOGICAL_TIME && roster.validFrom <= now < roster.validUntil }

  // ----- a target's receipt at the origin -----

  /** The targets of an object whose receipts are recorded. */
  ghost function ConfirmedTargets(db: Db, id: ObjectId): set<MemberId> { set t | t in id.manifest.targets && (id, t) in db.targetReceipts }

  /** When an origin records a receipt. */
  ghost predicate Recordable(db: Db, member: MemberId, proof: VerifiedReceipt, roster: Roster, now: nat) {
    var id := proof.receipt.objectId;
    && RosterLive(roster, now) && roster.digest == proof.rosterDigest && proof.receipt.at <= now
    && id in db.objects && id.manifest.origin == member && Committed(db.operations, id)
    && id in db.announcements && db.announcements[id] == proof.announcement && proof.receipt.actor in id.manifest.targets
  }

  /**
   * Recording a receipt adds its row unless the actor had one, answers with the receipts that are recorded and the targets there are,
   * and retires the outbox entry exactly when every target has a row.
   */
  lemma RecordReceiptEffect(db: Db, member: MemberId, proof: VerifiedReceipt, roster: Roster, now: nat)
    requires Inv(member, db)
    ensures RecordTargetReceipt(db, member, proof, roster, now).Done? <==> Recordable(db, member, proof, roster, now)
    ensures RecordTargetReceipt(db, member, proof, roster, now).Done? ==>
      var o, id := RecordTargetReceipt(db, member, proof, roster, now), proof.receipt.objectId;
      var db', progress := o.db, o.value;
      && OnlyTouches(db, db', {TargetReceipts, Outbox})
      && Gains(db.targetReceipts, db'.targetReceipts, (id, proof.receipt.actor), proof.receipt)
      && progress.confirmed == |ConfirmedTargets(db', id)| && progress.required == |id.manifest.targets|
      && (id in db'.outbox <==> exists t :: t in id.manifest.targets && (id, t) !in db'.targetReceipts)
      && (forall other :: other != id ==> (other in db'.outbox <==> other in db.outbox))
      && progress.state == (if id !in db'.outbox then DeliveredToAll
                            else if id.manifest.expiresAt <= now then ExpiredObject
                            else Relaying)
  {
    hide Inv, Confirmed, Committed, RecordTargetReceipt;
    var id := proof.receipt.objectId;
    RecordableOnly(db, member, proof, roster, now);
    if Recordable(db, member, proof, roster, now) {
      var receipts := InsertOrIgnore(db.targetReceipts, (id, proof.receipt.actor), proof.receipt);
      var db' := RecordReceiptTables(db, id, receipts);
      RecordReceiptIs(db, member, proof, roster, now);
      GainsInserted(db.targetReceipts, (id, proof.receipt.actor), proof.receipt);
      OutboxEntry(member, db, id);
      MoreReceipts(db, id, proof);
      ReceiptRows(member, db, id);
      ConfirmedAre(db', id);
      hide ConfirmedTargets, InsertOrIgnore, Gains;
    }
  }

  /** Not recordable: refused. */
  lemma RecordableOnly(db: Db, member: MemberId, proof: VerifiedReceipt, roster: Roster, now: nat)
    requires Inv(member, db)
    ensures RecordTargetReceipt(db, member, proof, roster, now).Done? ==> Recordable(db, member, proof, roster, now)
  {
    hide Inv, ProgressFrom, Committed, InsertOrIgnore, Manifest.Valid;
    if proof.receipt.objectId in db.objects { RowOf(member, db, proof.receipt.objectId); }
  }

  ghost function RecordReceiptTables(db: Db, id: ObjectId, receipts: Receipts): Db {
    db.(targetReceipts := receipts, outbox := if AllConfirmed(id, receipts) then db.outbox - {id} else db.outbox)
  }

  lemma RecordReceiptIs(db: Db, member: MemberId, proof: VerifiedReceipt, roster: Roster, now: nat)
    requires Inv(member, db) && Recordable(db, member, proof, roster, now)
    ensures
      var id := proof.receipt.objectId;
      var receipts := InsertOrIgnore(db.targetReceipts, (id, proof.receipt.actor), proof.receipt);
      RecordTargetReceipt(db, member, proof, roster, now) ==
        Done(RecordReceiptTables(db, id, receipts),
             Progress(if AllConfirmed(id, receipts) then DeliveredToAll else if now >= id.manifest.expiresAt then ExpiredObject else Relaying,
                      |Confirmed(receipts, id)|, |id.manifest.targets|))
  {
    var id := proof.receipt.objectId;
    var receipts := InsertOrIgnore(db.targetReceipts, (id, proof.receipt.actor), proof.receipt);
    hide Inv, Committed, AllConfirmed, Confirmed, ProgressFrom, Manifest.Valid;
    RowOf(member, db, id);
    ReceiptRows(member, db, id);
    ProgressIs(receipts, id, proof.receipt.actor, now);
    hide InsertOrIgnore;
  }

  lemma ProgressIs(receipts: Receipts, id: ObjectId, actor: MemberId, now: nat)
    requires id.manifest.Valid() && (forall k :: k in receipts && k.0 == id ==> k.1 in id.manifest.targets) && (id, actor) in receipts
    ensures ProgressFrom(receipts, id.manifest, now) ==
      Ok(Progress(if AllConfirmed(id, receipts) then DeliveredToAll else if now >= id.manifest.expiresAt then ExpiredObject else Relaying,
                  |Confirmed(receipts, id)|, |id.manifest.targets|))
  {
    ConfirmedCount(id, receipts);
    SomeConfirmed(receipts, id, actor);
    hide Manifest.Valid, AllConfirmed, Confirmed;
  }

  lemma SomeConfirmed(receipts: Receipts, id: ObjectId, actor: MemberId)
    requires (id, actor) in receipts
    ensures |Confirmed(receipts, id)| > 0
  {
    assert actor in Confirmed(receipts, id);
  }

  /** A further receipt confirms no less. */
  lemma MoreReceipts(db: Db, id: ObjectId, proof: VerifiedReceipt)
    ensures AllConfirmed(id, db.targetReceipts) ==>
              AllConfirmed(id, InsertOrIgnore(db.targetReceipts, (proof.receipt.objectId, proof.receipt.actor), proof.receipt))
  {
  }

  lemma ReceiptRows(member: MemberId, db: Db, id: ObjectId)
    requires Inv(member, db)
    ensures forall k :: k in db.targetReceipts && k.0 == id ==> k.1 in id.manifest.targets
  {
    hide ObjectsOk, ChunksOk, CompleteOk, ModesOk, RelayOk, DeliveriesOk, OperationsOk, OutboxOk, LinksOk;
  }

  lemma OutboxEntry(member: MemberId, db: Db, id: ObjectId)
    requires Inv(member, db) && Committed(db.operations, id)
    ensures id in db.outbox <==> !AllConfirmed(id, db.targetReceipts)
  {
    hide ObjectsOk, ChunksOk, CompleteOk, ModesOk, RelayOk, DeliveriesOk, OperationsOk, ReceiptsOk, LinksOk;
  }

  lemma ConfirmedAre(db: Db, id: ObjectId)
    requires forall k :: k in db.targetReceipts && k.0 == id ==> k.1 in id.manifest.targets
    ensures Confirmed(db.targetReceipts, id) == ConfirmedTargets(db, id)
  {
    forall t | t in ConfirmedTargets(db, id) ensures t in Confirmed(db.targetReceipts, id) { assert (id, t) in db.targetReceipts; }
  }

  // ----- a chunk -----

  /** With this chunk every chunk of the object is stored. */
  ghost predicate Completes(db: Db, id: ObjectId, index: nat) {
    forall i :: 0 <= i < |id.manifest.hashes| ==> i == index || (id, i) in db.chunks
  }

  /** The frame that came with a chunk may be recorded for its object. */
  predicate FrameAdmitted(db: Db, id: ObjectId, relay: RelayMetadata) {
    FrameBound(relay.frame, id.manifest) && if id in db.relayMetadata then db.relayMetadata[id] == relay else relay.frame.hopLimit > 0
  }

  /** When a store takes a chunk: of a live object it knows, genuine, in the object's own mode, and with an admissible frame. */
  ghost predicate Takeable(db: Db, member: MemberId, id: ObjectId, index: nat, bytes: Bytes, now: nat, relay: Option<RelayMetadata>) {
    && id in db.objects && LiveAt(id.manifest.expiresAt, now) && id.manifest.Fits(index, bytes)
    && (id in db.announcements <==> relay.Some?)
    && (relay.Some? && id.manifest.origin != member && Completes(db, id, index) ==> FrameAdmitted(db, id, relay.value))
  }

  /** A foreign object is taken into custody by the chunk that makes it whole. */
  ghost predicate TakesCustody(db: Db, member: MemberId, id: ObjectId, index: nat) {
    id.manifest.origin != member && Completes(db, id, index)
  }

  ghost predicate DeliversLegacy(db: Db, member: MemberId, id: ObjectId, index: nat, relay: Option<RelayMetadata>) {
    relay.None? && member in id.manifest.targets && Completes(db, id, index)
  }

  ghost predicate StoresChunk(db: Db, db': Db, member: MemberId, id: ObjectId, index: nat, bytes: Bytes, now: nat, relay: Option<RelayMetadata>)
    requires id in db.objects
    ensures StoresChunk(db, db', member, id, index, bytes, now, relay) && DeliversLegacy(db, member, id, index, relay) ==> id in db'.localDeliveries
  {
    && OnlyTouches(db, db', {Chunks, Objects, RelayOutbox, RelayFrameRows, LocalDeliveries})
    && Sets(db.chunks, db'.chunks, (id, index), bytes)
    && Sets(db.objects, db'.objects, id, ObjectRow(id.manifest, db.objects[id].complete || Completes(db, id, index)))
    && (if TakesCustody(db, member, id, index) then Gains(db.relayOutbox, db'.relayOutbox, id, now) else db'.relayOutbox == db.relayOutbox)
    && (if TakesCustody(db, member, id, index) && relay.Some? then Sets(db.relayMetadata, db'.relayMetadata, id, relay.value)
        else db'.relayMetadata == db.relayMetadata)
    && (if DeliversLegacy(db, member, id, index, relay) then Gains(db.localDeliveries, db'.localDeliveries, id, now)
        else db'.localDeliveries == db.localDeliveries)
  }

  /**
   * A chunk adds its row. The one that makes the object whole also marks it, takes a foreign object into custody together with
   * the frame that came with it, and delivers an unauthenticated one. In every other case those tables stay as they were.
   */
  lemma PutChunkEffect(db: Db, member: MemberId, id: ObjectId, index: nat, bytes: Bytes, now: nat, relay: Option<RelayMetadata>)
    requires Inv(member, db)
    ensures PutChunk(db, member, id, index, bytes, now, relay).Done? <==> Takeable(db, member, id, index, bytes, now, relay)
    ensures PutChunk(db, member, id, index, bytes, now, relay).Done? ==>
      var o := PutChunk(db, member, id, index, bytes, now, relay);
      && StoresChunk(db, o.db, member, id, index, bytes, now, relay)
      && o.value == if DeliversLegacy(db, member, id, index, relay) then Some(o.db.localDeliveries[id]) else None
  {
    hide Inv, Completes, FrameBound, Manifest.Fits, CompleteChunk, PutChunk;
    ChunkTaken(db, member, id, index, bytes, now, relay);
    if id in db.objects && id.manifest.Fits(index, bytes) {
      var chunks := db.chunks[(id, index) := bytes];
      RowOf(member, db, id);
      if Completes(db, id, index) {
        CompleteChunkEffect(db, member, id, chunks, now, relay);
      }
      WholeStays(member, db, id, index);
    }
  }

  /** The checks before the chunk is stored, and whether it is the last one. */
  lemma ChunkTaken(db: Db, member: MemberId, id: ObjectId, index: nat, bytes: Bytes, now: nat, relay: Option<RelayMetadata>)
    requires Inv(member, db)
    ensures
      var chunks := db.chunks[(id, index) := bytes];
      if id in db.objects && LiveAt(id.manifest.expiresAt, now) && id.manifest.Fits(index, bytes) && (id in db.announcements <==> relay.Some?)
      then PutChunk(db, member, id, index, bytes, now, relay) ==
             if Completes(db, id, index) then CompleteChunk(db, member, id, chunks, now, relay) else Done(db.(chunks := chunks), None)
      else PutChunk(db, member, id, index, bytes, now, relay).Failed?
  {
    hide Inv, Completes, Manifest.Fits, Manifest.Valid, CompleteChunk, InsertChunk, IndicesIn;
    if id in db.objects {
      RowOf(member, db, id);
      if id.manifest.Fits(index, bytes) {
        ChunkInserted(db, member, id, index, bytes);
        FitsBound(id.manifest, index, bytes);
      }
    }
  }

  /** A genuine chunk is never refused by the one that is stored, and the rows count as many as there are chunks just when none is missing. */
  lemma ChunkInserted(db: Db, member: MemberId, id: ObjectId, index: nat, bytes: Bytes)
    requires Inv(member, db) && id in db.objects && id.manifest.Fits(index, bytes)
    ensures
      var chunks := db.chunks[(id, index) := bytes];
      && InsertChunk(db, id, index, bytes) == Ok(chunks)
      && (|IndicesIn(chunks, id)| == |id.manifest.hashes| <==> Completes(db, id, index))
  {
    var chunks := db.chunks[(id, index) := bytes];
    RowOf(member, db, id);
    if (id, index) in db.chunks { SameChunk(id.manifest, index, bytes, db.chunks[(id, index)]); }
    assert (id, index) in db.chunks && db.chunks[(id, index)] == bytes ==> chunks == db.chunks;
    hide CompleteOk, ModesOk, RelayOk, DeliveriesOk, OperationsOk, ReceiptsOk, OutboxOk, LinksOk, SameSlot, Manifest.Valid, Manifest.Fits;
    CountedChunks(db.objects, chunks, id);
    assert AllChunks(id, chunks) <==> Completes(db, id, index);
  }

  lemma SameChunk(m: Manifest, index: nat, a: Bytes, b: Bytes)
    requires m.Fits(index, a) && m.Fits(index, b)
    ensures a == b
  {
  }

  /** What the last chunk of an object changes besides its own row. */
  ghost predicate Completing(db: Db, db': Db, member: MemberId, id: ObjectId, now: nat, relay: Option<RelayMetadata>) {
    && OnlyTouches(db, db', {Chunks, Objects, RelayOutbox, RelayFrameRows, LocalDeliveries})
    && Sets(db.objects, db'.objects, id, ObjectRow(id.manifest, true))
    && (if id.manifest.origin != member then Gains(db.relayOutbox, db'.relayOutbox, id, now) else db'.relayOutbox == db.relayOutbox)
    && (if id.manifest.origin != member && relay.Some? then Sets(db.relayMetadata, db'.relayMetadata, id, relay.value)
        else db'.relayMetadata == db.relayMetadata)
    && (if relay.None? && member in id.manifest.targets then Gains(db.localDeliveries, db'.localDeliveries, id, now)
        else db'.localDeliveries == db.localDeliveries)
  }

  lemma CompleteChunkEffect(db: Db, member: MemberId, id: ObjectId, chunks: map<(ObjectId, nat), Bytes>, now: nat, relay: Option<RelayMetadata>)
    requires id in db.objects && db.objects[id].manifest == id.manifest
    ensures CompleteChunk(db, member, id, chunks, now, relay).Done? <==>
              (relay.Some? && id.manifest.origin != member ==> FrameAdmitted(db, id, relay.value))
    ensures CompleteChunk(db, member, id, chunks, now, relay).Done? ==>
      var o := CompleteChunk(db, member, id, chunks, now, relay);
      && o.db.chunks == chunks && Completing(db, o.db, member, id, now, relay)
      && (if relay.None? && member in id.manifest.targets then id in o.db.localDeliveries && o.value == Some(o.db.localDeliveries[id])
          else o.value == None)
  {
    if relay.Some? { FrameRecorded(db, id, relay.value); }
    hide Sets, FrameBound, FrameAdmitted, RelayFrames, CompleteChunk, CompleteTables, OnlyTouches, Completing;
    var frames := if id.manifest.origin != member && relay.Some? then RelayFrames(db, id, id.manifest, relay.value) else Ok(db.relayMetadata);
    CompleteChunkIs(db, member, id, chunks, now, relay, frames, relay.None? && member in id.manifest.targets);
    if frames.Ok? { CompleteTablesAre(db, member, id, chunks, now, frames.value, relay); }
  }

  lemma CompleteTablesAre(db: Db, member: MemberId, id: ObjectId, chunks: map<(ObjectId, nat), Bytes>, now: nat,
    frames: map<ObjectId, RelayMetadata>, relay: Option<RelayMetadata>)
    requires if id.manifest.origin != member && relay.Some? then Sets(db.relayMetadata, frames, id, relay.value) else frames == db.relayMetadata
    ensures
      var local := relay.None? && member in id.manifest.targets;
      var db' := CompleteTables(db, member, id, chunks, now, frames, local);
      && db'.chunks == chunks && Completing(db, db', member, id, now, relay)
  {
    GainsInserted(db.relayOutbox, id, now);
    GainsInserted(db.localDeliveries, id, now);
    SetsUpdated(db.objects, id, ObjectRow(id.manifest, true));
    hide Gains, Sets, InsertOrIgnore;
  }

  /** The tables after the last chunk. */
  function CompleteTables(db: Db, member: MemberId, id: ObjectId, chunks: map<(ObjectId, nat), Bytes>, now: nat,
    frames: map<ObjectId, RelayMetadata>, local: bool): Db
  {
    db.(chunks := chunks, objects := db.objects[id := ObjectRow(id.manifest, true)],
        relayOutbox := if id.manifest.origin != member then InsertOrIgnore(db.relayOutbox, id, now) else db.relayOutbox,
        relayMetadata := frames,
        localDeliveries := if local then InsertOrIgnore(db.localDeliveries, id, now) else db.localDeliveries)
  }

  lemma CompleteChunkIs(db: Db, member: MemberId, id: ObjectId, chunks: map<(ObjectId, nat), Bytes>, now: nat, relay: Option<RelayMetadata>,
    frames: Result<map<ObjectId, RelayMetadata>, DurableError>, local: bool)
    requires id in db.objects && db.objects[id].manifest == id.manifest
    requires frames == if id.manifest.origin != member && relay.Some? then RelayFrames(db, id, id.manifest, relay.value) else Ok(db.relayMetadata)
    requires local <==> relay.None? && member in id.manifest.targets
    ensures frames.Err? ==> CompleteChunk(db, member, id, chunks, now, relay).Failed?
    ensures frames.Ok? ==>
      var o := CompleteChunk(db, member, id, chunks, now, relay);
      && o.Done? && o.db == CompleteTables(db, member, id, chunks, now, frames.value, local)
      && (local ==> id in o.db.localDeliveries && o.value == Some(o.db.localDeliveries[id])) && (!local ==> o.value == None)
  {
    hide RelayFrames;
  }

  lemma FrameRecorded(db: Db, id: ObjectId, relay: RelayMetadata)
    ensures RelayFrames(db, id, id.manifest, relay).Ok? <==> FrameAdmitted(db, id, relay)
    ensures FrameAdmitted(db, id, relay) ==> Sets(db.relayMetadata, RelayFrames(db, id, id.manifest, relay).value, id, relay)
  {
    hide FrameBound;
  }

  /** An object marked complete is whole already. */
  lemma WholeStays(member: MemberId, db: Db, id: ObjectId, index: nat)
    requires Inv(member, db) && id in db.objects
    ensures db.objects[id].complete ==> Completes(db, id, index)
  {
  }

  /**
   * A member that is offered every chunk of a foreign announced object with a frame bound to it has it in its relay queue
   * from the last chunk on, under that frame and sender, for as long as the frame lives.
   */
  lemma CustodyIsQueued(db: Db, member: MemberId, id: ObjectId, index: nat, bytes: Bytes, now: nat, relay: RelayMetadata, later: nat)
    requires Inv(member, db) && PutChunk(db, member, id, index, bytes, now, Some(relay)).Done?
    requires id.manifest.origin != member && Completes(db, id, index)
    ensures
      var db' := PutChunk(db, member, id, index, bytes, now, Some(relay)).db;
      && (id in RelayQueue(db', later) <==> later < relay.frame.expiresAt)
      && id in db'.relayMetadata && db'.relayMetadata[id] == relay
  {
    hide Inv, PutChunk, Completes, OnlyTouches;
    PutChunkEffect(db, member, id, index, bytes, now, Some(relay));
  }

  // ----- reservations and messages -----

  lemma ReserveEffect(db: Db, limits: Limits, op: OperationId, hash: nat)
    ensures Reserve(db, limits, op, hash).Done? <==>
              if op in db.operations then db.operations[op].commandHash == hash
              else |db.operations| < limits.operations && db.nextSequence < MAX_LOGICAL_TIME
    ensures Reserve(db, limits, op, hash).Done? ==>
      var o := Reserve(db, limits, op, hash);
      && OnlyTouches(db, o.db, {Sequence, Operations})
      && Gains(db.operations, o.db.operations, op, Operation(hash, db.nextSequence, None)) && o.value == o.db.operations[op]
      && o.db.nextSequence == db.nextSequence + (if op in db.operations then 0 else 1)
  {
  }

  lemma BeginEffect(db: Db, id: LogicalId, targetCount: nat, audienceCount: nat, expiresAt: nat, now: nat)
    ensures BeginLogical(db, id, targetCount, audienceCount, expiresAt, now).Done? <==>
              && now <= MAX_LOGICAL_TIME && now < expiresAt && 1 <= targetCount <= 49 && 1 <= audienceCount <= 5
              && (id in db.logical ==> db.logical[id] == Logical(db.logical[id].createdAt, expiresAt, targetCount, audienceCount))
    ensures BeginLogical(db, id, targetCount, audienceCount, expiresAt, now).Done? ==>
      var db' := BeginLogical(db, id, targetCount, audienceCount, expiresAt, now).db;
      OnlyTouches(db, db', {Messages}) && Gains(db.logical, db'.logical, id, Logical(now, expiresAt, targetCount, audienceCount))
  {
    var o, row := BeginLogical(db, id, targetCount, audienceCount, expiresAt, now), Logical(now, expiresAt, targetCount, audienceCount);
    GainsInserted(db.logical, id, row);
    hide Gains;
    if o.Done? { assert o.db == db.(logical := InsertOrIgnore(db.logical, id, row)); }
  }

  // ----- a commit -----

  /** There is room for the manifest, or it is stored already; no other object has its origin and sequence. */
  ghost predicate HasRoom(db: Db, limits: Limits, m: Manifest) {
    || m.Id() in db.objects
    || (&& (forall id :: id in db.objects ==> !(id.manifest.origin == m.origin && id.manifest.sequence == m.sequence))
        && |db.objects| < limits.objects && Total(ReservedBytes(db)) + m.contentLen <= limits.bytes)
  }

  /** The message has room for an audience of this size. */
  ghost predicate HasPlace(db: Db, logical: LogicalId, targetCount: nat) {
    && logical in db.logical && |LinkedTo(db, logical)| < db.logical[logical].audienceCount
    && Total(LinkedTo(db, logical)) + targetCount <= db.logical[logical].targetCount
  }

  /** An object keeps the mode, and the announcement, that it came with. */
  predicate SameMode(db: Db, id: ObjectId, announcement: Option<Announcement>) {
    id in db.objects ==> (id in db.announcements <==> announcement.Some?) && (id in db.announcements ==> announcement == Some(db.announcements[id]))
  }

  /** The reservation is this member's, for this command and sequence. */
  predicate Reserved(db: Db, member: MemberId, op: OperationId, hash: nat, m: Manifest) {
    op in db.operations && db.operations[op].commandHash == hash && db.operations[op].sequence == m.sequence && m.origin == member
  }

  /** When a commit succeeds: again for the object it already stored, or for a new one. */
  ghost predicate Committable(db: Db, member: MemberId, limits: Limits, op: OperationId, hash: nat, m: Manifest, now: nat,
    announcement: Option<Announcement>, logical: Option<LogicalId>)
  {
    && now <= MAX_LOGICAL_TIME && Reserved(db, member, op, hash, m) && SameMode(db, m.Id(), announcement)
    && (if db.operations[op].objectId.Some? then
          && db.operations[op].objectId.value == m.Id()
          && (logical.Some? ==> m.Id() in db.links && db.links[m.Id()].logical == logical.value)
        else
          && now < m.expiresAt && HasRoom(db, limits, m)
          && (logical.Some? ==> HasPlace(db, logical.value, |m.targets|)))
  }

  /** The chunk rows of other objects stay; those of this one are its chunks. */
  ghost predicate StoresChunks(rows: map<(ObjectId, nat), Bytes>, rows': map<(ObjectId, nat), Bytes>, id: ObjectId, chunks: seq<Bytes>) {
    forall k: (ObjectId, nat) ::
      && (k in rows' <==> if k.0 == id then k.1 < |chunks| else k in rows)
      && (k in rows' ==> rows'[k] == if k.0 == id then chunks[k.1] else rows[k])
  }

  /**
   * A first commit stores the whole object with its announcement, puts it into the outbox, links it and names it in its reservation,
   * all at once; a repeated one changes nothing. It is never refused for a clash with rows that are stored.
   */
  lemma CommitEffect(db: Db, member: MemberId, limits: Limits, op: OperationId, hash: nat, prepared: PreparedObject, now: nat,
    announcement: Option<Announcement>, logical: Option<LogicalId>)
    requires Inv(member, db) && prepared.Valid()
    ensures CommitOutgoing(db, member, limits, op, hash, prepared, now, announcement, logical).Done? <==>
              Committable(db, member, limits, op, hash, prepared.manifest, now, announcement, logical)
    ensures CommitOutgoing(db, member, limits, op, hash, prepared, now, announcement, logical).Done? ==>
      var o, m, id := CommitOutgoing(db, member, limits, op, hash, prepared, now, announcement, logical), prepared.manifest, prepared.manifest.Id();
      var db' := o.db;
      && o.value == id
      && (db.operations[op].objectId.Some? ==> db' == db)
      && (db.operations[op].objectId.None? ==>
            && OnlyTouches(db, db', {Operations, Objects, Chunks, Outbox, Announcements, Links, LocalDeliveries})
            && Sets(db.operations, db'.operations, op, Operation(hash, m.sequence, Some(id)))
            && Sets(db.objects, db'.objects, id, ObjectRow(m, true))
            && StoresChunks(db.chunks, db'.chunks, id, prepared.chunks)
            && db'.outbox == db.outbox + {id}
            && (if announcement.Some? then Sets(db.announcements, db'.announcements, id, announcement.value)
                else db'.announcements == db.announcements)
            && (if logical.Some? then Sets(db.links, db'.links, id, Link(logical.value, |m.targets|)) else db'.links == db.links)
            && (if announcement.None? && member in m.targets then Gains(db.localDeliveries, db'.localDeliveries, id, now)
                else db'.localDeliveries == db.localDeliveries))
  {
    hide Inv, PreparedObject.Valid, Manifest.Valid, HasRoom, HasPlace, SameMode, CommitNew, ModeAllows, StoresChunks, OnlyTouches;
    var m, id := prepared.manifest, prepared.manifest.Id();
    ModeIs(db, id, announcement);
    if Reserved(db, member, op, hash, m) {
      if db.operations[op].objectId.Some? {
        if logical.Some? && id in db.links { RepeatedLink(member, db, id, logical.value); }
      } else {
        NotCommitted(member, db, op, id);
        if now < m.expiresAt && SameMode(db, id, announcement) {
          CommitNewEffect(db, member, limits, op, prepared, now, announcement, logical);
        }
      }
    }
  }

  lemma ModeIs(db: Db, id: ObjectId, announcement: Option<Announcement>)
    ensures ModeAllows(db, id, announcement) <==> SameMode(db, id, announcement)
  {
  }

  /** A link row counts the targets of its object, so its message decides whether it is the wanted one. */
  lemma RepeatedLink(member: MemberId, db: Db, id: ObjectId, logical: LogicalId)
    requires Inv(member, db) && id in db.links
    ensures db.links[id] == Link(logical, |id.manifest.targets|) <==> db.links[id].logical == logical
  {
    hide ObjectsOk, ChunksOk, CompleteOk, ModesOk, RelayOk, DeliveriesOk, OperationsOk, ReceiptsOk, OutboxOk, WithinTotals;
  }

  /** An object under a sequence whose reservation is unused was never committed. */
  lemma NotCommitted(member: MemberId, db: Db, op: OperationId, id: ObjectId)
    requires Inv(member, db) && op in db.operations && db.operations[op].objectId.None? && db.operations[op].sequence == id.manifest.sequence
    ensures !Committed(db.operations, id) && !Claimed(db.operations, op, id) && id !in db.outbox && id !in db.links
  {
    hide ObjectsOk, ChunksOk, CompleteOk, ModesOk, RelayOk, DeliveriesOk, ReceiptsOk, WithinTotals, AllConfirmed;
  }

  lemma NoClash(member: MemberId, db: Db, prepared: PreparedObject)
    requires Inv(member, db) && prepared.Valid()
    ensures !ChunksClash(db.chunks, prepared.manifest.Id(), prepared.chunks)
  {
    var id := prepared.manifest.Id();
    hide CompleteOk, ModesOk, RelayOk, DeliveriesOk, OperationsOk, ReceiptsOk, OutboxOk, LinksOk, Manifest.Fits, Manifest.Valid, SameSlot;
    forall i | 0 <= i < |prepared.chunks| && (id, i) in db.chunks ensures db.chunks[(id, i)] == prepared.chunks[i] {
      assert db.objects[id].manifest.Id() == id;
      SameChunk(prepared.manifest, i, db.chunks[(id, i)], prepared.chunks[i]);
    }
  }

  /** Only this object's chunks are stored under it already. */
  lemma RowsWithin(member: MemberId, db: Db, id: ObjectId)
    requires Inv(member, db)
    ensures forall k :: k in db.chunks && k.0 == id ==> k.1 < |id.manifest.hashes|
  {
    hide CompleteOk, ModesOk, RelayOk, DeliveriesOk, OperationsOk, ReceiptsOk, OutboxOk, LinksOk, Manifest.Valid, SameSlot;
    forall k | k in db.chunks && k.0 == id ensures k.1 < |id.manifest.hashes| {
      assert db.objects[id].manifest.Id() == id;
      FitsBound(id.manifest, k.1, db.chunks[k]);
    }
  }

  lemma StoredRows(rows: map<(ObjectId, nat), Bytes>, id: ObjectId, chunks: seq<Bytes>)
    requires forall k :: k in rows && k.0 == id ==> k.1 < |chunks|
    ensures StoresChunks(rows, rows + ChunkRows(id, chunks), id, chunks)
  {
  }

  lemma InsertRoom(member: MemberId, db: Db, limits: Limits, m: Manifest)
    requires Inv(member, db)
    ensures InsertManifest(db, limits, m).Ok? <==> HasRoom(db, limits, m)
    ensures InsertManifest(db, limits, m).Ok? ==> Gains(db.objects, InsertManifest(db, limits, m).value, m.Id(), ObjectRow(m, false))
  {
    hide ChunksOk, CompleteOk, ModesOk, RelayOk, DeliveriesOk, OperationsOk, ReceiptsOk, OutboxOk, LinksOk, Manifest.Valid, Total, ReservedBytes;
    assert forall id :: id in db.objects ==> db.objects[id].manifest.Id() == id;
  }

  lemma LinkPlace(db: Db, logical: LogicalId, id: ObjectId, targetCount: nat)
    requires id !in db.links && 0 < targetCount <= 10
    ensures LinkLogical(db, logical, id, targetCount).Ok? <==> HasPlace(db, logical, targetCount)
    ensures HasPlace(db, logical, targetCount) ==>
              Sets(db.links, LinkLogical(db, logical, id, targetCount).value, id, Link(logical, targetCount))
  {
    hide Total, LinkRows;
  }

  lemma CommitNewEffect(db: Db, member: MemberId, limits: Limits, op: OperationId, prepared: PreparedObject, now: nat,
    announcement: Option<Announcement>, logical: Option<LogicalId>)
    requires Inv(member, db) && prepared.Valid() && op in db.operations && db.operations[op].objectId.None?
    requires db.operations[op].sequence == prepared.manifest.sequence && SameMode(db, prepared.manifest.Id(), announcement)
    ensures CommitNew(db, member, limits, op, prepared, now, announcement, logical).Done? <==>
              HasRoom(db, limits, prepared.manifest) && (logical.Some? ==> HasPlace(db, logical.value, |prepared.manifest.targets|))
    ensures CommitNew(db, member, limits, op, prepared, now, announcement, logical).Done? ==>
      var o, m, id := CommitNew(db, member, limits, op, prepared, now, announcement, logical), prepared.manifest, prepared.manifest.Id();
      var db' := o.db;
      && o.value == id
      && OnlyTouches(db, db', {Operations, Objects, Chunks, Outbox, Announcements, Links, LocalDeliveries})
      && Sets(db.operations, db'.operations, op, db.operations[op].(objectId := Some(id)))
      && Sets(db.objects, db'.objects, id, ObjectRow(m, true))
      && StoresChunks(db.chunks, db'.chunks, id, prepared.chunks)
      && db'.outbox == db.outbox + {id}
      && (if announcement.Some? then Sets(db.announcements, db'.announcements, id, announcement.value)
          else db'.announcements == db.announcements)
      && (if logical.Some? then Sets(db.links, db'.links, id, Link(logical.value, |m.targets|)) else db'.links == db.links)
      && (if announcement.None? && member in m.targets then Gains(db.localDeliveries, db'.localDeliveries, id, now)
          else db'.localDeliveries == db.localDeliveries)
  {
    var m, id := prepared.manifest, prepared.manifest.Id();
    assert 0 < |m.targets| <= 10 && |prepared.chunks| == |m.hashes|;
    SetsUpdated(db.operations, op, db.operations[op].(objectId := Some(id)));
    AnnouncedStored(member, db, id);
    RecordedAnnouncement(db, id, announcement);
    GainsInserted(db.localDeliveries, id, now);
    hide Sets, Gains, RecordAnnouncement, InsertOrIgnore;
    hide Inv, PreparedObject.Valid, Manifest.Valid, HasRoom, HasPlace, ChunksClash, Claimed, InsertManifest, LinkLogical, StoresChunks, ChunkRows;
    NoClash(member, db, prepared);
    NotCommitted(member, db, op, id);
    RowsWithin(member, db, id);
    StoredRows(db.chunks, id, prepared.chunks);
    InsertRoom(member, db, limits, m);
    if logical.Some? { LinkPlace(db, logical.value, id, |m.targets|); }
    hide CommitNew;
    CommitRefused(db, member, limits, op, prepared, now, announcement, logical);
    if HasRoom(db, limits, m) && (logical.Some? ==> HasPlace(db, logical.value, |m.targets|)) {
      SetsAgain(db.objects, InsertManifest(db, limits, m).value, id, ObjectRow(m, false), ObjectRow(m, true));
      CommitTables(db, member, limits, op, prepared, now, announcement, logical);
    }
  }

  lemma SetsUpdated<K(!new), V>(rows: map<K, V>, key: K, value: V)
    ensures Sets(rows, rows[key := value], key, value)
  {
  }

  lemma SetsAgain<K(!new), V>(rows: map<K, V>, rows': map<K, V>, key: K, first: V, second: V)
    requires Gains(rows, rows', key, first)
    ensures Sets(rows, rows'[key := second], key, second)
  {
  }

  lemma RecordedAnnouncement(db: Db, id: ObjectId, announcement: Option<Announcement>)
    requires (id in db.announcements ==> id in db.objects) && SameMode(db, id, announcement)
    ensures if announcement.Some? then Sets(db.announcements, RecordAnnouncement(db, id, announcement), id, announcement.value)
            else RecordAnnouncement(db, id, announcement) == db.announcements
  {
  }

  lemma CommitRefused(db: Db, member: MemberId, limits: Limits, op: OperationId, prepared: PreparedObject, now: nat,
    announcement: Option<Announcement>, logical: Option<LogicalId>)
    requires op in db.operations
    ensures CommitNew(db, member, limits, op, prepared, now, announcement, logical).Done? ==>
      && InsertManifest(db, limits, prepared.manifest).Ok?
      && (logical.Some? ==> LinkLogical(db, logical.value, prepared.manifest.Id(), |prepared.manifest.targets|).Ok?)
  {
    hide InsertManifest, ChunksClash, Claimed, LinkLogical, ChunkRows, RecordAnnouncement, DeliverLegacy;
  }

  lemma AnnouncedStored(member: MemberId, db: Db, id: ObjectId)
    requires Inv(member, db)
    ensures id in db.announcements ==> id in db.objects
  {
    hide ObjectsOk, ChunksOk, CompleteOk, RelayOk, DeliveriesOk, OperationsOk, ReceiptsOk, OutboxOk, LinksOk;
  }

  lemma CommitTables(db: Db, member: MemberId, limits: Limits, op: OperationId, prepared: PreparedObject, now: nat,
    announcement: Option<Announcement>, logical: Option<LogicalId>)
    requires op in db.operations && InsertManifest(db, limits, prepared.manifest).Ok?
    requires !ChunksClash(db.chunks, prepared.manifest.Id(), prepared.chunks) && prepared.manifest.Id() !in db.outbox
    requires logical.Some? ==> LinkLogical(db, logical.value, prepared.manifest.Id(), |prepared.manifest.targets|).Ok?
    requires !Claimed(db.operations, op, prepared.manifest.Id())
    ensures
      var m, id := prepared.manifest, prepared.manifest.Id();
      CommitNew(db, member, limits, op, prepared, now, announcement, logical) ==
        Done(db.(objects := InsertManifest(db, limits, m).value[id := ObjectRow(m, true)],
                 announcements := RecordAnnouncement(db, id, announcement),
                 chunks := db.chunks + ChunkRows(id, prepared.chunks),
                 outbox := db.outbox + {id},
                 links := if logical.Some? then LinkLogical(db, logical.value, id, |m.targets|).value else db.links,
                 localDeliveries := DeliverLegacy(db, member, m, now, announcement),
                 operations := db.operations[op := db.operations[op].(objectId := Some(id))]), id)
  {
    hide InsertManifest, ChunksClash, Claimed, LinkLogical, ChunkRows, RecordAnnouncement, DeliverLegacy;
  }

  // ----- an announcement -----

  ghost predicate Announceable(db: Db, limits: Limits, a: Authenticated, roster: Roster, now: nat) {
    && RosterLive(roster, now) && a.rosterDigest == roster.digest && LiveAt(a.Manifest().expiresAt, now)
    && SameMode(db, a.Manifest().Id(), Some(a.announcement)) && HasRoom(db, limits, a.Manifest())
  }

  /** An announcement adds the object's row, not complete, and the announcement; announcing again changes nothing. */
  lemma AnnounceEffect(member: MemberId, db: Db, limits: Limits, a: Authenticated, roster: Roster, now: nat)
    requires Inv(member, db)
    ensures AnnounceAuthenticated(db, limits, a, roster, now).Done? <==> Announceable(db, limits, a, roster, now)
    ensures AnnounceAuthenticated(db, limits, a, roster, now).Done? ==>
      var o, m := AnnounceAuthenticated(db, limits, a, roster, now), a.Manifest();
      && o.value == m.Id() && OnlyTouches(db, o.db, {Objects, Announcements})
      && Gains(db.objects, o.db.objects, m.Id(), ObjectRow(m, false))
      && Sets(db.announcements, o.db.announcements, m.Id(), a.announcement)
  {
    hide Inv, HasRoom, InsertManifest, ModeAllows, RecordAnnouncement, Gains, Sets, SameMode;
    var m := a.Manifest();
    ModeIs(db, m.Id(), Some(a.announcement));
    InsertRoom(member, db, limits, m);
    AnnouncedStored(member, db, m.Id());
    if SameMode(db, m.Id(), Some(a.announcement)) {
      RecordedAnnouncement(db, m.Id(), Some(a.announcement));
    }
    hide Sets, Gains;
    var o := AnnounceAuthenticated(db, limits, a, roster, now);
    if o.Done? {
      assert o == Done(db.(objects := InsertManifest(db, limits, m).value,
                           announcements := RecordAnnouncement(db, m.Id(), Some(a.announcement))), m.Id());
    }
  }

  /** The same for an unauthenticated manifest, which never meets an announcement. */
  lemma AnnounceLegacyEffect(member: MemberId, db: Db, limits: Limits, m: Manifest, now: nat)
    requires Inv(member, db)
    ensures Announce(db, limits, m, now).Done? <==> LiveAt(m.expiresAt, now) && SameMode(db, m.Id(), None) && HasRoom(db, limits, m)
    ensures Announce(db, limits, m, now).Done? ==>
      var o := Announce(db, limits, m, now);
      o.value == m.Id() && OnlyTouches(db, o.db, {Objects}) && Gains(db.objects, o.db.objects, m.Id(), ObjectRow(m, false))
  {
    hide Inv, HasRoom, InsertManifest, ModeAllows, Gains, SameMode;
    ModeIs(db, m.Id(), None);
    InsertRoom(member, db, limits, m);
  }

  /** Staging a chunk of an announced object stores it and says whether the object is whole; it marks and delivers nothing. */
  lemma StageChunkEffect(db: Db, member: MemberId, id: ObjectId, index: nat, bytes: Bytes, now: nat)
    requires Inv(member, db)
    ensures StageChunk(db, id, index, bytes, now).Done? <==>
              id in db.announcements && LiveAt(id.manifest.expiresAt, now) && id.manifest.Fits(index, bytes)
    ensures StageChunk(db, id, index, bytes, now).Done? ==>
      var o := StageChunk(db, id, index, bytes, now);
      && OnlyTouches(db, o.db, {Chunks}) && Sets(db.chunks, o.db.chunks, (id, index), bytes)
      && (o.value <==> Completes(db, id, index))
  {
    hide Inv, Completes, Manifest.Fits, Manifest.Valid, InsertChunk, IndicesIn, Sets;
    AnnouncedStored(member, db, id);
    SetsUpdated(db.chunks, (id, index), bytes);
    if id in db.objects {
      RowOf(member, db, id);
      if id.manifest.Fits(index, bytes) {
        ChunkInserted(db, member, id, index, bytes);
        FitsBound(id.manifest, index, bytes);
      }
    }
  }

  // ----- a delivery -----

  /** When a recipient commits a delivery: a second time, or for a whole object while the proof stands. */
  ghost predicate Finalizable(db: Db, member: MemberId, proof: VerifiedDelivery, roster: Roster, key: nat, now: nat) {
    var id := proof.Subject();
    && proof.member == member && RosterLive(roster, now) && proof.announcement.rosterDigest == roster.digest
    && id in db.announcements && db.announcements[id] == proof.announcement.announcement
    && (id in db.deliveries || (proof.verifiedAt <= now < proof.deadline && AllChunks(id, db.chunks) && key == proof.key))
  }

  /** What the member of the proof signs. */
  function OwnReceipt(proof: VerifiedDelivery, signature: nat, now: nat): Receipt {
    var id := proof.Subject();
    Receipt(proof.announcement.scope, proof.context, id, id.manifest.origin, id.manifest.sequence, proof.member, now, signature)
  }

  /** The first finalize writes marker, receipt and complete flag together; a later one answers with what the first one wrote. */
  lemma FinalizeEffect(db: Db, member: MemberId, proof: VerifiedDelivery, roster: Roster, key: nat, signature: nat, now: nat)
    requires Inv(member, db)
    ensures FinalizeReceived(db, member, proof, roster, key, signature, now).Done? <==> Finalizable(db, member, proof, roster, key, now)
    ensures FinalizeReceived(db, member, proof, roster, key, signature, now).Done? ==>
      var o, id := FinalizeReceived(db, member, proof, roster, key, signature, now), proof.Subject();
      var db' := o.db;
      && id in db'.localDeliveries && id in db'.deliveries && o.value == ReceiptCommit(db'.localDeliveries[id], db'.deliveries[id])
      && (id in db.deliveries ==> db' == db)
      && (id !in db.deliveries ==>
            && OnlyTouches(db, db', {LocalDeliveries, Deliveries, Objects})
            && Sets(db.localDeliveries, db'.localDeliveries, id, now)
            && Sets(db.deliveries, db'.deliveries, id, OwnReceipt(proof, signature, now))
            && Sets(db.objects, db'.objects, id, ObjectRow(id.manifest, true)))
  {
    hide Inv, Sets, AllChunks, ChunkError, Manifest.Valid;
    var id := proof.Subject();
    DeliveredTogether(member, db, id);
    AnnouncedStored(member, db, id);
    if id in db.announcements {
      RowOf(member, db, id);
      WholeOrNot(member, db, id);
      SetsUpdated(db.localDeliveries, id, now);
      SetsUpdated(db.deliveries, id, OwnReceipt(proof, signature, now));
      SetsUpdated(db.objects, id, ObjectRow(id.manifest, true));
    }
  }

  lemma DeliveredTogether(member: MemberId, db: Db, id: ObjectId)
    requires Inv(member, db)
    ensures id in db.announcements ==> (id in db.localDeliveries <==> id in db.deliveries)
    ensures id in db.deliveries ==> id in db.localDeliveries && id in db.announcements
  {
    hide ObjectsOk, ChunksOk, CompleteOk, ModesOk, RelayOk, OperationsOk, ReceiptsOk, OutboxOk, LinksOk;
  }

  /** The scan of the chunk rows finds nothing wrong just when none is missing. */
  lemma WholeOrNot(member: MemberId, db: Db, id: ObjectId)
    requires Inv(member, db) && id in db.objects
    ensures ChunkError(db, id, id.manifest, 0).None? <==> AllChunks(id, db.chunks)
  {
    RowOf(member, db, id);
    hide CompleteOk, ModesOk, RelayOk, DeliveriesOk, OperationsOk, ReceiptsOk, OutboxOk, LinksOk, Manifest.Valid, SameSlot, Manifest.Fits;
    if AllChunks(id, db.chunks) {
      NoChunkError(db, id, id.manifest, 0);
    } else {
      var i: nat :| i < |id.manifest.hashes| && (id, i) !in db.chunks;
      MissingChunk(db, id, id.manifest, 0, i);
    }
  }

  lemma {:induction false} MissingChunk(db: Db, id: ObjectId, m: Manifest, from: nat, i: nat)
    requires from <= i < |m.hashes| && (id, i) !in db.chunks
    ensures ChunkError(db, id, m, from).Some?
    decreases i - from
  {
    hide Manifest.Fits;
    if from < i { MissingChunk(db, id, m, from + 1, i); }
  }

  // ----- acknowledgements -----

  /** When a member records an acknowledgement: live roster, addressed to it, by the origin, of the very receipt it issued. */
  predicate Answerable(db: Db, member: MemberId, ack: Ack, roster: Roster, now: nat) {
    && RosterLive(roster, now) && ack.actor == member && ack.origin == ack.objectId.manifest.origin
    && ack.objectId in db.deliveries && ack.receiptId == ReceiptId(db.deliveries[ack.objectId])
  }

  lemma RecordAckEffect(db: Db, member: MemberId, ack: Ack, roster: Roster, now: nat)
    requires Inv(member, db)
    ensures RecordReceiptAck(db, member, ack, roster, now).Done? <==> Answerable(db, member, ack, roster, now)
    ensures RecordReceiptAck(db, member, ack, roster, now).Done? ==>
      var db' := RecordReceiptAck(db, member, ack, roster, now).db;
      && OnlyTouches(db, db', {Acknowledgements})
      && Gains(db.acknowledged, db'.acknowledged, ack.objectId, Acknowledged(ack.receiptId, ack.at))
  {
    hide Inv, Gains, InsertOrIgnore, Manifest.Valid;
    DeliveredTogether(member, db, ack.objectId);
    AnnouncedStored(member, db, ack.objectId);
    if ack.objectId in db.objects { RowOf(member, db, ack.objectId); }
    GainsInserted(db.acknowledged, ack.objectId, Acknowledged(ack.receiptId, ack.at));
  }

  /** The origin answers with an acknowledgement of the receipt it holds: the stored one while it verifies, else a new one that it stores. */
  lemma OriginAckEffect(db: Db, member: MemberId, id: ObjectId, actor: MemberId, envelope: Result<Envelope, DurableError>, roster: Roster,
    key: nat, signature: nat, now: nat, oracle: Oracle)
    requires Inv(member, db) && OriginReceiptAck(db, member, id, actor, envelope, roster, key, signature, now, oracle).Done?
    ensures
      var o := OriginReceiptAck(db, member, id, actor, envelope, roster, key, signature, now, oracle);
      && (id, actor) in db.targetReceipts && RosterLive(roster, now) && member in roster.members && key == roster.members[member].key
      && o.value.receiptId == ReceiptId(db.targetReceipts[(id, actor)]) && o.value.objectId == id && o.value.actor == actor
      && OnlyTouches(db, o.db, {OriginAcks}) && Sets(db.originAcks, o.db.originAcks, (id, actor), o.value)
      && (if (id, actor) in db.originAcks && VerifyAck(db.originAcks[(id, actor)], roster, now, oracle).Ok? then o.db == db
          else o.value == Ack(roster.scope, ReceiptId(db.targetReceipts[(id, actor)]), id, member, actor, now, signature))
  {
    hide Inv, VerifyTargetReceipt, VerifyAck, Sets, IssueAck;
    var o, row := OriginReceiptAck(db, member, id, actor, envelope, roster, key, signature, now, oracle), (id, actor);
    if row in db.originAcks && VerifyAck(db.originAcks[row], roster, now, oracle).Ok? {
      AckOfReceipt(member, db, row);
      SetsUpdated(db.originAcks, row, db.originAcks[row]);
      assert db.originAcks[row := db.originAcks[row]] == db.originAcks;
      assert o == Done(db, db.originAcks[row]);
    } else {
      IssuedAck(db.targetReceipts[row], id, member, actor, roster.scope, key, signature, now);
      SetsUpdated(db.originAcks, row, o.value);
      assert o.db == db.(originAcks := db.originAcks[row := o.value]);
    }
  }

  lemma IssuedAck(receipt: Receipt, id: ObjectId, origin: MemberId, actor: MemberId, scope: Scope, key: nat, signature: nat, now: nat)
    ensures IssueAck(receipt, id, origin, actor, scope, key, signature, now).Ok? ==>
              IssueAck(receipt, id, origin, actor, scope, key, signature, now).value
                == Ack(scope, ReceiptId(receipt), id, origin, actor, now, signature)
  {
  }

  lemma AckOfReceipt(member: MemberId, db: Db, key: (ObjectId, MemberId))
    requires Inv(member, db) && key in db.originAcks
    ensures
      && key in db.targetReceipts && db.originAcks[key].receiptId == ReceiptId(db.targetReceipts[key])
      && db.originAcks[key].objectId == key.0 && db.originAcks[key].actor == key.1
  {
    hide ObjectsOk, ChunksOk, CompleteOk, ModesOk, RelayOk, DeliveriesOk, OperationsOk, OutboxOk, LinksOk;
  }

  // ----- custody of receipts and acknowledgements -----

  /** The live rows of a custody table. */
  ghost predicate LiveRows<K(!new)>(rows: map<K, Custody>, rows': map<K, Custody>, now: nat) {
    forall k :: (k in rows' <==> k in rows && now < rows[k].frame.expiresAt) && (k in rows' ==> rows'[k] == rows[k])
  }

  /** Admitted: a live forwarded frame of this member, and room among the live rows. */
  ghost predicate Retainable<K(!new)>(rows: map<K, Custody>, member: MemberId, limits: Limits, key: K, frame: RelayFrame, now: nat) {
    && now <= MAX_LOGICAL_TIME && frame.previousHop == member && frame.hops <= frame.hopLimit && now < frame.expiresAt
    && ((key in rows && now < rows[key].frame.expiresAt) || (|Unexpired(rows, now)| < limits.operations && 0 < frame.hopLimit <= 16))
  }

  /** A custody table drops what has expired and keeps what it has; a new record is added with its frame, sender and time. */
  lemma RetainEffect<K(!new)>(rows: map<K, Custody>, member: MemberId, limits: Limits, key: K, frame: RelayFrame, receivedFrom: MemberId, now: nat)
    ensures LiveRows(rows, Unexpired(rows, now), now)
    ensures Retain(rows, member, limits, key, frame, receivedFrom, now).Ok? <==> Retainable(rows, member, limits, key, frame, now)
    ensures Retain(rows, member, limits, key, frame, receivedFrom, now).Ok? ==>
              Gains(Unexpired(rows, now), Retain(rows, member, limits, key, frame, receivedFrom, now).value, key, Custody(frame, receivedFrom, now))
  {
  }

  lemma RelayReceiptEffect(db: Db, member: MemberId, limits: Limits, receipt: Receipt, frame: RelayFrame, receivedFrom: MemberId, now: nat)
    ensures PutRelayReceipt(db, member, limits, receipt, frame, receivedFrom, now).Done? <==>
              Retainable(db.relayReceipts, member, limits, ReceiptId(receipt), frame, now)
    ensures PutRelayReceipt(db, member, limits, receipt, frame, receivedFrom, now).Done? ==>
      var db' := PutRelayReceipt(db, member, limits, receipt, frame, receivedFrom, now).db;
      && OnlyTouches(db, db', {RelayReceipts}) && ReceiptId(receipt) in db'.relayReceipts
      && Gains(Unexpired(db.relayReceipts, now), db'.relayReceipts, ReceiptId(receipt), Custody(frame, receivedFrom, now))
  {
    hide Retain, Retainable, Unexpired;
    RetainEffect(db.relayReceipts, member, limits, ReceiptId(receipt), frame, receivedFrom, now);
  }

  lemma RelayAckEffect(db: Db, member: MemberId, limits: Limits, ack: Ack, frame: RelayFrame, receivedFrom: MemberId, now: nat)
    ensures PutRelayAck(db, member, limits, ack, frame, receivedFrom, now).Done? <==>
              Retainable(db.relayAcks, member, limits, ack, frame, now)
    ensures PutRelayAck(db, member, limits, ack, frame, receivedFrom, now).Done? ==>
      var db' := PutRelayAck(db, member, limits, ack, frame, receivedFrom, now).db;
      && OnlyTouches(db, db', {RelayAcks}) && ack in db'.relayAcks
      && Gains(Unexpired(db.relayAcks, now), db'.relayAcks, ack, Custody(frame, receivedFrom, now))
  {
    hide Retain, Retainable, Unexpired;
    RetainEffect(db.relayAcks, member, limits, ack, frame, receivedFrom, now);
  }

  // ----- deletion -----

  /** Exactly the rows of these objects are gone. */
  ghost predicate LosesObjects<V>(rows: map<ObjectId, V>, rows': map<ObjectId, V>, gone: set<ObjectId>) {
    forall id :: (id in rows' <==> id in rows && id !in gone) && (id in rows' ==> rows'[id] == rows[id])
  }

  ghost predicate LosesRows<B(!new), V>(rows: map<(ObjectId, B), V>, rows': map<(ObjectId, B), V>, gone: set<ObjectId>) {
    forall k :: (k in rows' <==> k in rows && k.0 !in gone) && (k in rows' ==> rows'[k] == rows[k])
  }

  /** Every row of these objects is gone from every table, and no other row of an object. */
  ghost predicate Deleted(db: Db, db': Db, gone: set<ObjectId>) {
    && LosesObjects(db.objects, db'.objects, gone) && LosesRows(db.chunks, db'.chunks, gone)
    && (forall id :: id in db'.outbox <==> id in db.outbox && id !in gone)
    && LosesObjects(db.relayOutbox, db'.relayOutbox, gone) && LosesObjects(db.relayMetadata, db'.relayMetadata, gone)
    && LosesObjects(db.localDeliveries, db'.localDeliveries, gone) && LosesObjects(db.announcements, db'.announcements, gone)
    && LosesObjects(db.deliveries, db'.deliveries, gone) && LosesRows(db.targetReceipts, db'.targetReceipts, gone)
    && LosesRows(db.originAcks, db'.originAcks, gone) && LosesObjects(db.acknowledged, db'.acknowledged, gone)
    && LosesObjects(db.links, db'.links, gone)
  }

  /** The reservations that named another object stay; unused ones go. */
  ghost predicate KeepsUsed(db: Db, db': Db, gone: set<ObjectId>) {
    forall op ::
      && (op in db'.operations <==> op in db.operations && db.operations[op].objectId.Some? && db.operations[op].objectId.value !in gone)
      && (op in db'.operations ==> db'.operations[op] == db.operations[op])
  }

  /** No object outlives its message. */
  ghost predicate MessagesOutlive(db: Db, now: nat) {
    forall id :: id in db.links && id.manifest.expiresAt > now && db.links[id].logical in db.logical ==>
      now < db.logical[db.links[id].logical].expiresAt
  }

  ghost predicate HasLiveObject(db: Db, logical: LogicalId, now: nat) {
    exists id :: id in db.links && db.links[id].logical == logical && id.manifest.expiresAt > now
  }

  /**
   * Pruning deletes exactly the expired objects with all their rows, messages that expired or lost every object, reservations that
   * name no object, and expired custody; the sequence stays.
   */
  lemma PruneEffect(member: MemberId, db: Db, now: nat)
    requires Inv(member, db)
    ensures Prune(db, now).Done? <==> now <= MAX_LOGICAL_TIME && MessagesOutlive(db, now)
    ensures Prune(db, now).Done? ==>
      var o := Prune(db, now);
      var db', gone := o.db, set id | id in db.objects && id.manifest.expiresAt <= now;
      && o.value == |gone| && Deleted(db, db', gone) && KeepsUsed(db, db', gone) && db'.nextSequence == db.nextSequence
      && LiveRows(db.relayReceipts, db'.relayReceipts, now) && LiveRows(db.relayAcks, db'.relayAcks, now)
      && (forall l :: l in db'.logical <==> l in db.logical && now < db.logical[l].expiresAt && HasLiveObject(db, l, now))
      && (forall l :: l in db'.logical ==> db'.logical[l] == db.logical[l])
  {
    hide Inv, DeleteObjects, OthersReservations, UsedReservations, Deleted, KeepsUsed;
    var gone := set id | id in db.objects && id.manifest.expiresAt <= now;
    ExpiredAre(member, db, now);
    assert gone == ExpiredObjects(db, now);
    hide ExpiredObjects;
    var db1 := DeleteObjects(db, gone);
    DeleteEffect(db, gone);
    LinksStored(member, db);
    forall l ensures HasLinks(db1, l) <==> HasLiveObject(db, l, now) { DeletedHasLinks(db, db1, gone, l, now); }
    UsedEffect(db, db1, gone);
    PruneDone(member, db, now, db1);
    RetainLive(db, now);
    hide HasLinks, HasLiveObject, Unexpired, LiveRows;
    if Prune(db, now).Done? {
      PruneTables(db, now, db1);
      hide Prune;
      DeletedSame(db, db1, Prune(db, now).db, gone);
    }
  }

  lemma ExpiredAre(member: MemberId, db: Db, now: nat)
    requires Inv(member, db)
    ensures ExpiredObjects(db, now) == set id | id in db.objects && id.manifest.expiresAt <= now
  {
    hide ChunksOk, CompleteOk, ModesOk, RelayOk, DeliveriesOk, OperationsOk, ReceiptsOk, OutboxOk, LinksOk, Manifest.Valid, SameSlot;
    assert forall id :: id in db.objects ==> db.objects[id].manifest.Id() == id;
  }

  /** Deleting the rows of a set of objects, table by table. */
  lemma DeleteEffect(db: Db, gone: set<ObjectId>)
    ensures Deleted(db, DeleteObjects(db, gone), gone)
    ensures
      var db1 := DeleteObjects(db, gone);
      && db1.operations == OthersReservations(db.operations, gone) && db1.nextSequence == db.nextSequence && db1.logical == db.logical
      && db1.relayReceipts == db.relayReceipts && db1.relayAcks == db.relayAcks
  {
    hide OthersReservations;
  }

  lemma LinksStored(member: MemberId, db: Db)
    requires Inv(member, db)
    ensures forall id :: id in db.links ==> id in db.objects && db.links[id].logical in db.logical
  {
    hide ObjectsOk, ChunksOk, CompleteOk, ModesOk, RelayOk, DeliveriesOk, ReceiptsOk, OutboxOk, WithinTotals;
  }

  lemma DeletedHasLinks(db: Db, db1: Db, gone: set<ObjectId>, l: LogicalId, now: nat)
    requires Deleted(db, db1, gone) && (forall id :: id in db.links ==> id in db.objects)
    requires gone == set id | id in db.objects && id.manifest.expiresAt <= now
    ensures HasLinks(db1, l) <==> HasLiveObject(db, l, now)
  {
  }

  lemma UsedEffect(db: Db, db1: Db, gone: set<ObjectId>)
    requires db1.operations == OthersReservations(db.operations, gone)
    ensures forall db': Db :: db'.operations == UsedReservations(db1.operations) ==> KeepsUsed(db, db', gone)
  {
  }

  lemma RetainLive(db: Db, now: nat)
    ensures LiveRows(db.relayReceipts, Unexpired(db.relayReceipts, now), now) && LiveRows(db.relayAcks, Unexpired(db.relayAcks, now), now)
  {
  }

  lemma PruneDone(member: MemberId, db: Db, now: nat, db1: Db)
    requires Inv(member, db) && db1 == DeleteObjects(db, ExpiredObjects(db, now)) && db1.logical == db.logical
    requires forall l :: HasLinks(db1, l) <==> HasLiveObject(db, l, now)
    ensures Prune(db, now).Done? <==> now <= MAX_LOGICAL_TIME && MessagesOutlive(db, now)
  {
    hide Inv, DeleteObjects, HasLinks, ExpiredObjects, DropUnused, Unexpired;
    var stale := StaleLogical(db1, now);
    LinksStored(member, db);
    if exists l :: l in stale && HasLinks(db1, l) {
      var l :| l in stale && HasLinks(db1, l);
      var id :| id in db.links && db.links[id].logical == l && id.manifest.expiresAt > now;
    }
    if !MessagesOutlive(db, now) {
      var id :| id in db.links && id.manifest.expiresAt > now && db.links[id].logical in db.logical
                && db.logical[db.links[id].logical].expiresAt <= now;
      assert HasLiveObject(db, db.links[id].logical, now);
      assert db.links[id].logical in stale && HasLinks(db1, db.links[id].logical);
    }
  }

  lemma PruneTables(db: Db, now: nat, db1: Db)
    requires db1 == DeleteObjects(db, ExpiredObjects(db, now)) && Prune(db, now).Done?
    ensures
      var stale := StaleLogical(db1, now);
      Prune(db, now) == Done(db1.(logical := db1.logical - stale, relayReceipts := Unexpired(db1.relayReceipts, now),
                                  relayAcks := Unexpired(db1.relayAcks, now), operations := UsedReservations(db1.operations)),
                             |ExpiredObjects(db, now)|)
  {
    hide DeleteObjects, HasLinks, ExpiredObjects, Unexpired, UsedReservations, StaleLogical;
  }

  /** Rolling a message back deletes exactly its row, its objects with all their rows, and reservations that name no object. */
  lemma RollbackEffect(db: Db, logical: LogicalId)
    ensures
      var db', gone := Rollback(db, logical), set id | id in db.links && db.links[id].logical == logical;
      && Deleted(db, db', gone) && KeepsUsed(db, db', gone) && logical !in db'.logical && SameBut(db.logical, db'.logical, logical)
      && db'.nextSequence == db.nextSequence && db'.relayReceipts == db.relayReceipts && db'.relayAcks == db.relayAcks
  {
    hide DeleteObjects, OthersReservations, UsedReservations, Deleted, KeepsUsed;
    var gone := set id | id in db.links && db.links[id].logical == logical;
    assert gone == LinkedTo(db, logical).Keys;
    hide LinkRows;
    DeleteEffect(db, gone);
    UsedEffect(db, DeleteObjects(db, gone), gone);
    var db1 := DeleteObjects(db, gone);
    assert Rollback(db, logical) == db1.(logical := db1.logical - {logical}, operations := UsedReservations(db1.operations));
    DeletedSame(db, db1, Rollback(db, logical), gone);
  }

  lemma DeletedSame(db: Db, db1: Db, db': Db, gone: set<ObjectId>)
    requires Deleted(db, db1, gone)
    requires db' == db1.(logical := db'.logical, operations := db'.operations, relayReceipts := db'.relayReceipts, relayAcks := db'.relayAcks)
    ensures Deleted(db, db', gone)
  {
    hide LosesObjects, LosesRows;
  }
}
