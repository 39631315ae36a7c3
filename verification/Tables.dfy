/**
 * The encrypted store's tables as one value, and each transaction as a function from tables to tables.
 * A failed transaction leaves the tables as they were.
 */
module Tables {
  import opened Types
  import opened Sums
  import opened Protocol
  import RelayCaches

  type RelayFrame = RelayCaches.RelayFrame
  type OperationId = nat
  type LogicalId = nat

  datatype Limits = Limits(objects: nat, bytes: nat, operations: nat)

  datatype ObjectRow = ObjectRow(manifest: Manifest, complete: bool)
  datatype Operation = Operation(commandHash: nat, sequence: nat, objectId: Option<ObjectId>)
  datatype RelayMetadata = RelayMetadata(frame: RelayFrame, receivedFrom: MemberId)
  datatype Custody = Custody(frame: RelayFrame, receivedFrom: MemberId, custodiedAt: nat)
  datatype Acknowledged = Acknowledged(receiptId: ReceiptId, at: nat)
  datatype Logical = Logical(createdAt: nat, expiresAt: nat, targetCount: nat, audienceCount: nat)
  datatype Link = Link(logical: LogicalId, targetCount: nat)

  datatype Db = Db(
    nextSequence: nat,
    operations: map<OperationId, Operation>,
    objects: map<ObjectId, ObjectRow>,
    chunks: map<(ObjectId, nat), Bytes>,
    outbox: set<ObjectId>,
    relayOutbox: map<ObjectId, nat>,
    relayMetadata: map<ObjectId, RelayMetadata>,
    localDeliveries: map<ObjectId, nat>,
    announcements: map<ObjectId, Announcement>,
    deliveries: map<ObjectId, Receipt>,
    targetReceipts: map<(ObjectId, MemberId), Receipt>,
    originAcks: map<(ObjectId, MemberId), Ack>,
    acknowledged: map<ObjectId, Acknowledged>,
    relayReceipts: map<ReceiptId, Custody>,
    relayAcks: map<Ack, Custody>,
    logical: map<LogicalId, Logical>,
    links: map<ObjectId, Link>)

  const EMPTY: Db := Db(1, map[], map[], map[], {}, map[], map[], map[], map[], map[], map[], map[], map[], map[], map[], map[], map[])

  datatype Outcome<+T> = Done(db: Db, value: T) | Failed(error: DurableError)

  /** The tables after a transaction. */
  function After<T>(db: Db, o: Outcome<T>): Db { if o.Done? then o.db else db }

  // ----- queries -----

  function Manifest(db: Db, id: ObjectId): Manifest requires id in db.objects { db.objects[id].manifest }

  function IndicesIn(chunks: map<(ObjectId, nat), Bytes>, id: ObjectId): set<nat> { set k | k in chunks && k.0 == id :: k.1 }

  /** The actors whose receipts are recorded for an object. */
  function Confirmed(receipts: map<(ObjectId, MemberId), Receipt>, id: ObjectId): set<MemberId> {
    set k | k in receipts && k.0 == id :: k.1
  }

  predicate Committed(operations: map<OperationId, Operation>, id: ObjectId) {
    exists op :: op in operations && operations[op].objectId == Some(id)
  }

  function LinkRows(links: map<ObjectId, Link>, logical: LogicalId): (rows: map<ObjectId, nat>)
    ensures rows.Keys <= links.Keys
  {
    map id | id in links && links[id].logical == logical :: links[id].targetCount
  }

  function LinkedTo(db: Db, logical: LogicalId): map<ObjectId, nat> { LinkRows(db.links, logical) }

  function ReservedBytes(db: Db): map<ObjectId, nat> {
    map id | id in db.objects :: db.objects[id].manifest.contentLen
  }

  function Live(m: Manifest, now: nat): Result<(), DurableError> {
    if now > MAX_LOGICAL_TIME then Err(InvalidInput) else if now >= m.expiresAt then Err(Expired) else Ok(())
  }

  /** A protected object is never promoted from, nor demoted to, the unauthenticated mode. */
  predicate ModeAllows(db: Db, id: ObjectId, announcement: Option<Announcement>) {
    id !in db.objects
    || (if id in db.announcements then announcement == Some(db.announcements[id]) else announcement.None?)
  }

  // ----- objects and chunks -----

  /** One origin never uses a sequence for two objects. */
  predicate SameSlot(a: Manifest, b: Manifest) { a.origin == b.origin && a.sequence == b.sequence }

  ghost function InsertManifest(db: Db, limits: Limits, m: Manifest): Result<map<ObjectId, ObjectRow>, DurableError> {
    if m.Id() in db.objects then Ok(db.objects)
    else if exists id :: id in db.objects && SameSlot(db.objects[id].manifest, m) then Err(Conflict)
    else if |db.objects| >= limits.objects || Total(ReservedBytes(db)) + m.contentLen > limits.bytes then Err(ResourcePressure)
    else Ok(db.objects[m.Id() := ObjectRow(m, false)])
  }

  function InsertChunk(db: Db, id: ObjectId, index: nat, bytes: Bytes): Result<map<(ObjectId, nat), Bytes>, DurableError> {
    if (id, index) in db.chunks then if db.chunks[(id, index)] == bytes then Ok(db.chunks) else Err(Corrupt)
    else Ok(db.chunks[(id, index) := bytes])
  }

  function Completed(objects: map<ObjectId, ObjectRow>, id: ObjectId): map<ObjectId, ObjectRow> {
    if id in objects then objects[id := objects[id].(complete := true)] else objects
  }

  /** `INSERT OR IGNORE`: a row that is already there stays. */
  function InsertOrIgnore<K, V>(rows: map<K, V>, key: K, value: V): map<K, V> {
    if key in rows then rows else rows[key := value]
  }

  function RecordAnnouncement(db: Db, id: ObjectId, announcement: Option<Announcement>): map<ObjectId, Announcement> {
    if announcement.Some? then InsertOrIgnore(db.announcements, id, announcement.value) else db.announcements
  }

  // ----- reservations -----

  function Reserve(db: Db, limits: Limits, op: OperationId, commandHash: nat): Outcome<Operation> {
    if op in db.operations then
      if db.operations[op].commandHash != commandHash then Failed(Conflict) else Done(db, db.operations[op])
    else if |db.operations| >= limits.operations || db.nextSequence >= MAX_LOGICAL_TIME then Failed(ResourcePressure)
    else
      var row := Operation(commandHash, db.nextSequence, None);
      Done(db.(nextSequence := db.nextSequence + 1, operations := db.operations[op := row]), row)
  }

  // ----- logical messages -----

  function BeginLogical(db: Db, id: LogicalId, targetCount: nat, audienceCount: nat, expiresAt: nat, now: nat): Outcome<()> {
    if || now > MAX_LOGICAL_TIME || targetCount == 0 || targetCount > 49 || audienceCount == 0 || audienceCount > 5
       || expiresAt <= now
    then Failed(InvalidInput)
    else if id in db.logical then
      var row := db.logical[id];
      if row.expiresAt == expiresAt && row.targetCount == targetCount && row.audienceCount == audienceCount
      then Done(db, ()) else Failed(Conflict)
    else Done(db.(logical := db.logical[id := Logical(now, expiresAt, targetCount, audienceCount)]), ())
  }

  ghost function LinkLogical(db: Db, logical: LogicalId, id: ObjectId, targetCount: nat): Result<map<ObjectId, Link>, DurableError> {
    if targetCount == 0 || targetCount > 10 then Err(InvalidInput)
    else if logical !in db.logical then Err(NotFound)
    else if id in db.links then if db.links[id] == Link(logical, targetCount) then Ok(db.links) else Err(Conflict)
    else
      var row, bound := db.logical[logical], LinkedTo(db, logical);
      if |bound| >= row.audienceCount || Total(bound) + targetCount > row.targetCount then Err(Conflict)
      else Ok(db.links[id := Link(logical, targetCount)])
  }

  datatype LogicalState = Queued | PartiallyDelivered | Delivered | ExpiredMessage

  datatype LogicalSummary = LogicalSummary(
    targetCount: nat, audienceCount: nat, committedAudiences: nat, deliveredTargets: nat, state: LogicalState)

  /** A message that is not stored, or has fewer audiences than declared. */
  predicate Incomplete(db: Db, logical: LogicalId) {
    logical in db.logical ==> |LinkedTo(db, logical)| < db.logical[logical].audienceCount
  }

  /** Receipts recorded for each object linked to a logical message. */
  function ReceiptCounts(db: Db, logical: LogicalId): map<ObjectId, nat> {
    map id | id in LinkedTo(db, logical) :: |Confirmed(db.targetReceipts, id)|
  }

  ghost function Summary(db: Db, id: LogicalId, now: nat): Result<Option<LogicalSummary>, DurableError> {
    if now > MAX_LOGICAL_TIME then Err(InvalidInput)
    else if id !in db.logical then Ok(None)
    else
      var row, committed, delivered := db.logical[id], |LinkedTo(db, id)|, Total(ReceiptCounts(db, id));
      if committed > row.audienceCount || delivered > row.targetCount then Err(Corrupt)
      else
        var state :=
          if row.expiresAt <= now then ExpiredMessage
          else if committed == row.audienceCount && delivered == row.targetCount then Delivered
          else if delivered > 0 then PartiallyDelivered
          else Queued;
        Ok(Some(LogicalSummary(row.targetCount, row.audienceCount, committed, delivered, state)))
  }

  // ----- outgoing objects -----

  /** Another reservation already names this object: the operations table refuses the same object twice. */
  predicate Claimed(operations: map<OperationId, Operation>, op: OperationId, id: ObjectId) {
    exists p :: p in operations && p != op && operations[p].objectId == Some(id)
  }

  /** The chunk rows of a whole object. */
  function ChunkRows(id: ObjectId, chunks: seq<Bytes>): map<(ObjectId, nat), Bytes> {
    map k: (ObjectId, nat) | k in (set i | 0 <= i < |chunks| :: (id, i)) :: chunks[k.1]
  }

  predicate ChunksClash(rows: map<(ObjectId, nat), Bytes>, id: ObjectId, chunks: seq<Bytes>) {
    exists i :: 0 <= i < |chunks| && (id, i) in rows && rows[(id, i)] != chunks[i]
  }

  /** Only an object without an announcement is delivered locally by the commit itself. */
  function DeliverLegacy(db: Db, member: MemberId, m: Manifest, now: nat, announcement: Option<Announcement>): map<ObjectId, nat> {
    if announcement.None? && member in m.targets then InsertOrIgnore(db.localDeliveries, m.Id(), now) else db.localDeliveries
  }

  /** The first commit of a reservation: the object with all its chunks, its announcement, link and outbox row, at once. */
  ghost function CommitNew(db: Db, member: MemberId, limits: Limits, op: OperationId, prepared: PreparedObject,
    now: nat, announcement: Option<Announcement>, logical: Option<LogicalId>)
    : Outcome<ObjectId>
    requires op in db.operations
  {
    var m, id := prepared.manifest, prepared.manifest.Id();
    var objects := InsertManifest(db, limits, m);
    if objects.Err? then Failed(objects.error)
    else if ChunksClash(db.chunks, id, prepared.chunks) then Failed(Corrupt)
    else if id in db.outbox then Failed(StorageUnavailable)
    else
      var links := if logical.Some? then LinkLogical(db, logical.value, id, |m.targets|) else Ok(db.links);
      if links.Err? then Failed(links.error)
      else if Claimed(db.operations, op, id) then Failed(StorageUnavailable)
      else
        Done(db.(objects := objects.value[id := ObjectRow(m, true)],
                 announcements := RecordAnnouncement(db, id, announcement),
                 chunks := db.chunks + ChunkRows(id, prepared.chunks),
                 outbox := db.outbox + {id},
                 links := links.value,
                 localDeliveries := DeliverLegacy(db, member, m, now, announcement),
                 operations := db.operations[op := db.operations[op].(objectId := Some(id))]), id)
  }

  ghost function CommitOutgoing(db: Db, member: MemberId, limits: Limits, op: OperationId, commandHash: nat, prepared: PreparedObject,
    now: nat, announcement: Option<Announcement>, logical: Option<LogicalId>)
    : Outcome<ObjectId>
  {
    var m, id := prepared.manifest, prepared.manifest.Id();
    if now > MAX_LOGICAL_TIME then Failed(InvalidInput)
    else if op !in db.operations then Failed(NotFound)
    else if db.operations[op].commandHash != commandHash || db.operations[op].sequence != m.sequence || m.origin != member
    then Failed(Conflict)
    else if db.operations[op].objectId.Some? then
      if !ModeAllows(db, id, announcement) then Failed(AuthenticationFailed)
      else if logical.Some? && !(id in db.links && db.links[id] == Link(logical.value, |m.targets|)) then Failed(Conflict)
      else if db.operations[op].objectId.value == id then Done(db, id) else Failed(Conflict)
    else if now >= m.expiresAt then Failed(Expired)
    else if !ModeAllows(db, id, announcement) then Failed(AuthenticationFailed)
    else CommitNew(db, member, limits, op, prepared, now, announcement, logical)
  }

  // ----- incoming objects -----

  ghost function Announce(db: Db, limits: Limits, m: Manifest, now: nat): Outcome<ObjectId> {
    if Live(m, now).Err? then Failed(Live(m, now).error)
    else if !ModeAllows(db, m.Id(), None) then Failed(AuthenticationFailed)
    else
      var objects := InsertManifest(db, limits, m);
      if objects.Err? then Failed(objects.error) else Done(db.(objects := objects.value), m.Id())
  }

  ghost function AnnounceAuthenticated(db: Db, limits: Limits, a: Authenticated, roster: Roster, now: nat): Outcome<ObjectId> {
    var m := a.Manifest();
    if a.ValidateRoster(roster, now).Err? then Failed(a.ValidateRoster(roster, now).error)
    else if Live(m, now).Err? then Failed(Live(m, now).error)
    else if !ModeAllows(db, m.Id(), Some(a.announcement)) then Failed(AuthenticationFailed)
    else
      var objects := InsertManifest(db, limits, m);
      if objects.Err? then Failed(objects.error)
      else
        Done(db.(objects := objects.value, announcements := RecordAnnouncement(db, m.Id(), Some(a.announcement))), m.Id())
  }

  /** The forwarding frame is bound to the object's manifest. */
  predicate FrameBound(frame: RelayFrame, m: Manifest) {
    && frame.origin == m.origin
    && 0 < frame.expiresAt <= m.expiresAt
    && frame.hopLimit <= m.hopLimit
    && frame.hops <= frame.hopLimit
  }

  /** The forwarding frame of an object is recorded once; another frame for the same object is refused. */
  function RelayFrames(db: Db, id: ObjectId, m: Manifest, relay: RelayMetadata): Result<map<ObjectId, RelayMetadata>, DurableError> {
    if !FrameBound(relay.frame, m) then Err(InvalidInput)
    else if id in db.relayMetadata then if db.relayMetadata[id] == relay then Ok(db.relayMetadata) else Err(Conflict)
    else if relay.frame.hopLimit == 0 then Err(StorageUnavailable)
    else Ok(db.relayMetadata[id := relay])
  }

  /** The chunk that completes an object marks it, takes a foreign object into custody, and delivers a legacy one. */
  function CompleteChunk(db: Db, member: MemberId, id: ObjectId, chunks: map<(ObjectId, nat), Bytes>, now: nat, relay: Option<RelayMetadata>)
    : Outcome<Option<nat>>
    requires id in db.objects
  {
    var m := db.objects[id].manifest;
    var foreign := m.origin != member;
    var frames := if foreign && relay.Some? then RelayFrames(db, id, m, relay.value) else Ok(db.relayMetadata);
    if frames.Err? then Failed(frames.error)
    else
      var local := relay.None? && member in m.targets;
      var deliveries := if local then InsertOrIgnore(db.localDeliveries, id, now) else db.localDeliveries;
      Done(db.(chunks := chunks,
               objects := Completed(db.objects, id),
               relayOutbox := if foreign then InsertOrIgnore(db.relayOutbox, id, now) else db.relayOutbox,
               relayMetadata := frames.value,
               localDeliveries := deliveries),
           if local then Some(deliveries[id]) else None)
  }

  function PutChunk(db: Db, member: MemberId, id: ObjectId, index: nat, bytes: Bytes, now: nat, relay: Option<RelayMetadata>)
    : Outcome<Option<nat>>
  {
    if relay.Some? && id !in db.announcements then Failed(AuthenticationFailed)
    else if relay.None? && !ModeAllows(db, id, None) then Failed(AuthenticationFailed)
    else if id !in db.objects then Failed(NotFound)
    else
      var m := db.objects[id].manifest;
      if Live(m, now).Err? then Failed(Live(m, now).error)
      else if m.VerifyChunk(index, bytes).Err? then Failed(m.VerifyChunk(index, bytes).error)
      else
        var chunks := InsertChunk(db, id, index, bytes);
        if chunks.Err? then Failed(chunks.error)
        else if |IndicesIn(chunks.value, id)| != |m.hashes| then Done(db.(chunks := chunks.value), None)
        else CompleteChunk(db, member, id, chunks.value, now, relay)
  }

  function StageChunk(db: Db, id: ObjectId, index: nat, bytes: Bytes, now: nat): Outcome<bool> {
    if id !in db.announcements then Failed(AuthenticationFailed)
    else if id !in db.objects then Failed(NotFound)
    else
      var m := db.objects[id].manifest;
      if Live(m, now).Err? then Failed(Live(m, now).error)
      else if m.VerifyChunk(index, bytes).Err? then Failed(m.VerifyChunk(index, bytes).error)
      else
        var chunks := InsertChunk(db, id, index, bytes);
        if chunks.Err? then Failed(chunks.error)
        else Done(db.(chunks := chunks.value), |IndicesIn(chunks.value, id)| == |m.hashes|)
  }

  // ----- deliveries and receipts -----

  datatype ReceiptCommit = ReceiptCommit(committedAt: nat, receipt: Receipt)

  function ReceiptFrom(db: Db, id: ObjectId): Option<ReceiptCommit> {
    if id in db.localDeliveries && id in db.deliveries then Some(ReceiptCommit(db.localDeliveries[id], db.deliveries[id])) else None
  }

  /** The error the first missing or mismatching chunk would give, from index i on. */
  function ChunkError(db: Db, id: ObjectId, m: Manifest, i: nat): Option<DurableError>
    requires i <= |m.hashes|
    decreases |m.hashes| - i
  {
    if i == |m.hashes| then None
    else if (id, i) !in db.chunks then Some(NotFound)
    else if !m.Fits(i, db.chunks[(id, i)]) then Some(Corrupt)
    else ChunkError(db, id, m, i + 1)
  }

  function FinalizeReceived(db: Db, member: MemberId, proof: VerifiedDelivery, roster: Roster, signerKey: nat, signature: nat, now: nat)
    : Outcome<ReceiptCommit>
  {
    var id := proof.Subject();
    var checked := proof.announcement.ValidateRoster(roster, now);
    if proof.member != member then Failed(AuthenticationFailed)
    else if checked.Err? then Failed(checked.error)
    else if id !in db.announcements || db.announcements[id] != proof.announcement.announcement then Failed(AuthenticationFailed)
    else if ReceiptFrom(db, id).Some? then Done(db, ReceiptFrom(db, id).value)
    else if proof.ValidateCommit(roster, now).Err? then Failed(proof.ValidateCommit(roster, now).error)
    else if id !in db.objects then Failed(NotFound)
    else if ChunkError(db, id, db.objects[id].manifest, 0).Some? then Failed(ChunkError(db, id, db.objects[id].manifest, 0).value)
    else
      var receipt := proof.ReceiptForCommit(signerKey, signature, now);
      if receipt.Err? then Failed(receipt.error)
      else if id in db.localDeliveries || id in db.deliveries then Failed(StorageUnavailable)
      else
        Done(db.(localDeliveries := db.localDeliveries[id := now], deliveries := db.deliveries[id := receipt.value],
                 objects := Completed(db.objects, id)),
             ReceiptCommit(now, receipt.value))
  }

  /** The stored announcement of an object, verified again under the current roster. */
  function StoredAnnouncement(db: Db, id: ObjectId, roster: Roster, now: nat, oracle: Oracle): Result<Authenticated, DurableError> {
    if id !in db.announcements then Err(AuthenticationFailed)
    else
      var a := AuthenticateAnnouncement(db.announcements[id], roster, now, oracle);
      if a.Err? then a
      else if id !in db.objects then Err(NotFound)
      else if a.value.Manifest() != db.objects[id].manifest then Err(Corrupt)
      else a
  }

  function VerifyTargetReceipt(db: Db, id: ObjectId, receipt: Receipt, envelope: Result<Envelope, DurableError>, roster: Roster, now: nat,
    oracle: Oracle)
    : Result<VerifiedReceipt, DurableError>
  {
    var a := StoredAnnouncement(db, id, roster, now, oracle);
    if a.Err? then Err(a.error)
    else if ChunkError(db, id, a.value.Manifest(), 0).Some? then Err(ChunkError(db, id, a.value.Manifest(), 0).value)
    else VerifyReceipt(receipt, a.value, envelope, roster, now, oracle)
  }

  datatype DeliveryState = Stored | Relaying | DeliveredToAll | ExpiredObject
  datatype Progress = Progress(state: DeliveryState, confirmed: nat, required: nat)

  function ProgressFrom(receipts: map<(ObjectId, MemberId), Receipt>, m: Manifest, now: nat): Result<Progress, DurableError> {
    var confirmed, required := |Confirmed(receipts, m.Id())|, |m.targets|;
    if confirmed > required then Err(Corrupt)
    else
      Ok(Progress(
        if confirmed == required then DeliveredToAll
        else if now >= m.expiresAt then ExpiredObject
        else if confirmed > 0 then Relaying
        else Stored, confirmed, required))
  }

  function RecordTargetReceipt(db: Db, member: MemberId, proof: VerifiedReceipt, roster: Roster, now: nat): Outcome<Progress> {
    var id, checked := proof.receipt.objectId, proof.ValidateCommit(roster, now);
    if checked.Err? then Failed(checked.error)
    else if id !in db.objects then Failed(NotFound)
    else
      var m := db.objects[id].manifest;
      if m.origin != member || id !in db.announcements || db.announcements[id] != proof.announcement || proof.receipt.actor !in m.targets
      then Failed(AuthenticationFailed)
      else if !Committed(db.operations, id) then Failed(NotFound)
      else
        var receipts := InsertOrIgnore(db.targetReceipts, (id, proof.receipt.actor), proof.receipt);
        var progress := ProgressFrom(receipts, m, now);
        if progress.Err? then Failed(progress.error)
        else
          Done(db.(targetReceipts := receipts,
                   outbox := if progress.value.state.DeliveredToAll? then db.outbox - {id} else db.outbox),
               progress.value)
  }

  function OriginReceiptAck(db: Db, member: MemberId, objectId: ObjectId, actor: MemberId, envelope: Result<Envelope, DurableError>,
    roster: Roster, signerKey: nat, signature: nat, now: nat, oracle: Oracle)
    : Outcome<Ack>
  {
    var key := (objectId, actor);
    if roster.ValidateAt(now).Err? then Failed(roster.ValidateAt(now).error)
    else if member !in roster.members || signerKey != roster.members[member].key then Failed(AuthenticationFailed)
    else if key !in db.targetReceipts then Failed(NotFound)
    else if key in db.originAcks && VerifyAck(db.originAcks[key], roster, now, oracle).Ok? then Done(db, db.originAcks[key])
    else
      var verified := VerifyTargetReceipt(db, objectId, db.targetReceipts[key], envelope, roster, now, oracle);
      if verified.Err? then Failed(verified.error)
      else
        var ack := IssueAck(db.targetReceipts[key], objectId, member, actor, roster.scope, signerKey, signature, now);
        if ack.Err? then Failed(ack.error)
        else Done(db.(originAcks := db.originAcks[key := ack.value]), ack.value)
  }

  function RecordReceiptAck(db: Db, member: MemberId, ack: Ack, roster: Roster, now: nat): Outcome<()> {
    if roster.ValidateAt(now).Err? then Failed(roster.ValidateAt(now).error)
    else if ack.actor != member then Failed(AuthenticationFailed)
    else if ReceiptFrom(db, ack.objectId).None? then Failed(NotFound)
    else if ack.objectId !in db.objects then Failed(NotFound)
    else if db.objects[ack.objectId].manifest.origin != ack.origin || ReceiptId(db.deliveries[ack.objectId]) != ack.receiptId
    then Failed(AuthenticationFailed)
    else Done(db.(acknowledged := InsertOrIgnore(db.acknowledged, ack.objectId, Acknowledged(ack.receiptId, ack.at))), ())
  }

  // ----- custody of receipts and acknowledgements on a relay -----

  function Unexpired<K>(rows: map<K, Custody>, now: nat): map<K, Custody> {
    map k | k in rows && rows[k].frame.expiresAt > now :: rows[k]
  }

  /** Admits one more record to a bounded custody table, dropping expired rows first. */
  function Retain<K>(rows: map<K, Custody>, member: MemberId, limits: Limits, key: K, frame: RelayFrame, receivedFrom: MemberId, now: nat)
    : Result<map<K, Custody>, DurableError>
  {
    if now > MAX_LOGICAL_TIME || frame.previousHop != member || frame.hops > frame.hopLimit || frame.expiresAt <= now
    then Err(InvalidInput)
    else
      var kept := Unexpired(rows, now);
      if key in kept then Ok(kept)
      else if |kept| >= limits.operations then Err(ResourcePressure)
      else if frame.hopLimit == 0 || frame.hopLimit > 16 then Err(StorageUnavailable)
      else Ok(kept[key := Custody(frame, receivedFrom, now)])
  }

  function PutRelayReceipt(db: Db, member: MemberId, limits: Limits, receipt: Receipt, frame: RelayFrame, receivedFrom: MemberId, now: nat)
    : Outcome<()>
  {
    var rows := Retain(db.relayReceipts, member, limits, ReceiptId(receipt), frame, receivedFrom, now);
    if rows.Err? then Failed(rows.error) else Done(db.(relayReceipts := rows.value), ())
  }

  function RemoveRelayReceipt(db: Db, id: ReceiptId): Db {
    db.(relayReceipts := db.relayReceipts - {id})
  }

  function PutRelayAck(db: Db, member: MemberId, limits: Limits, ack: Ack, frame: RelayFrame, receivedFrom: MemberId, now: nat)
    : Outcome<()>
  {
    var rows := Retain(db.relayAcks, member, limits, ack, frame, receivedFrom, now);
    if rows.Err? then Failed(rows.error) else Done(db.(relayAcks := rows.value), ())
  }

  // ----- retention -----

  /** The rows of a table keyed by object and something else that belong to other objects. */
  function OfOthers<B(==), V>(rows: map<(ObjectId, B), V>, ids: set<ObjectId>): map<(ObjectId, B), V> {
    map k | k in rows && k.0 !in ids :: rows[k]
  }

  predicate NamesOne(row: Operation, ids: set<ObjectId>) { row.objectId.Some? && row.objectId.value in ids }

  function OthersReservations(operations: map<OperationId, Operation>, ids: set<ObjectId>): map<OperationId, Operation> {
    map op | op in operations && !NamesOne(operations[op], ids) :: operations[op]
  }

  /** Every row that belongs to one of the objects, gone. */
  function DeleteObjects(db: Db, ids: set<ObjectId>): Db {
    db.(operations := OthersReservations(db.operations, ids),
        objects := db.objects - ids,
        chunks := OfOthers(db.chunks, ids),
        outbox := db.outbox - ids,
        relayOutbox := db.relayOutbox - ids,
        relayMetadata := db.relayMetadata - ids,
        localDeliveries := db.localDeliveries - ids,
        announcements := db.announcements - ids,
        deliveries := db.deliveries - ids,
        targetReceipts := OfOthers(db.targetReceipts, ids),
        originAcks := OfOthers(db.originAcks, ids),
        acknowledged := db.acknowledged - ids,
        links := db.links - ids)
  }

  /** Reservations that never produced an object, gone. */
  function DropUnused(db: Db): Db { db.(operations := UsedReservations(db.operations)) }

  function UsedReservations(operations: map<OperationId, Operation>): map<OperationId, Operation> {
    map op | op in operations && operations[op].objectId.Some? :: operations[op]
  }

  function ExpiredObjects(db: Db, now: nat): set<ObjectId> {
    set id | id in db.objects && db.objects[id].manifest.expiresAt <= now
  }

  predicate HasLinks(db: Db, logical: LogicalId) {
    exists id :: id in db.links && db.links[id].logical == logical
  }

  /** Logical messages that pruning deletes: expired, or without any object. */
  function StaleLogical(db: Db, now: nat): set<LogicalId> {
    set l | l in db.logical && (db.logical[l].expiresAt <= now || !HasLinks(db, l))
  }

  function Prune(db: Db, now: nat): Outcome<nat> {
    if now > MAX_LOGICAL_TIME then Failed(InvalidInput)
    else
      var gone := ExpiredObjects(db, now);
      var db1 := DeleteObjects(db, gone);
      var stale := StaleLogical(db1, now);
      if exists l :: l in stale && HasLinks(db1, l) then Failed(StorageUnavailable)
      else
        Done(DropUnused(db1.(logical := db1.logical - stale,
                             relayReceipts := Unexpired(db1.relayReceipts, now),
                             relayAcks := Unexpired(db1.relayAcks, now))),
             |gone|)
  }

  function Rollback(db: Db, logical: LogicalId): Db {
    var db1 := DeleteObjects(db, LinkedTo(db, logical).Keys);
    DropUnused(db1.(logical := db1.logical - {logical}))
  }
}
