/** What every reachable store satisfies, whatever transactions it has run. */
module TablesInvariant {
  import opened Types
  import opened Sums
  import opened Protocol
  import opened Tables

  type Objects = map<ObjectId, ObjectRow>
  type Operations = map<OperationId, Operation>
  type Receipts = map<(ObjectId, MemberId), Receipt>

  // ----- the invariant, table by table -----

  /** Rows are keyed by their manifest's digest, and (origin, sequence) is unique. */
  ghost predicate ObjectsOk(objects: Objects) {
    && (forall id :: id in objects ==> objects[id].manifest.Id() == id && objects[id].manifest.Valid())
    && (forall a, b :: a in objects && b in objects && SameSlot(a.manifest, b.manifest) ==> a == b)
  }

  /** Every stored chunk is the one its object's manifest names. */
  ghost predicate ChunksOk(objects: Objects, chunks: map<(ObjectId, nat), Bytes>) {
    forall k :: k in chunks ==> k.0 in objects && objects[k.0].manifest.Fits(k.1, chunks[k])
  }

  ghost predicate AllChunks(id: ObjectId, chunks: map<(ObjectId, nat), Bytes>) {
    forall i :: 0 <= i < |id.manifest.hashes| ==> (id, i) in chunks
  }

  ghost predicate CompleteOk(objects: Objects, chunks: map<(ObjectId, nat), Bytes>) {
    forall id :: id in objects && objects[id].complete ==> AllChunks(id, chunks)
  }

  ghost predicate ModesOk(objects: Objects, announcements: map<ObjectId, Announcement>) {
    forall id :: id in announcements ==> id in objects && announcements[id].manifest.Id() == id
  }

  /** Custody is of complete foreign objects; a forwarding frame needs a signed announcement and is bound to the manifest. */
  ghost predicate RelayOk(member: MemberId, objects: Objects, announcements: map<ObjectId, Announcement>,
    relayOutbox: map<ObjectId, nat>, relayMetadata: map<ObjectId, RelayMetadata>)
  {
    && (forall id :: id in relayOutbox ==> id in objects && objects[id].complete && id.manifest.origin != member)
    && (forall id :: id in relayMetadata ==>
          id in relayOutbox && id in announcements && FrameBound(relayMetadata[id].frame, id.manifest)
          && relayMetadata[id].frame.hopLimit > 0)
  }

  /** An authenticated object is delivered locally exactly when it has this member's signed receipt. */
  ghost predicate DeliveriesOk(member: MemberId, objects: Objects, announcements: map<ObjectId, Announcement>,
    localDeliveries: map<ObjectId, nat>, deliveries: map<ObjectId, Receipt>, acknowledged: map<ObjectId, Acknowledged>)
  {
    && (forall id :: id in localDeliveries ==> id in objects && objects[id].complete)
    && (forall id :: id in deliveries ==>
          && id in localDeliveries && id in announcements
          && deliveries[id].objectId == id && deliveries[id].actor == member && deliveries[id].origin == id.manifest.origin)
    && (forall id :: id in announcements && id in localDeliveries ==> id in deliveries)
    && (forall id :: id in acknowledged ==> id in deliveries && acknowledged[id].receiptId == ReceiptId(deliveries[id]))
  }

  /** Sequences are distinct and below the next one; a used reservation names a complete object of this member. */
  ghost predicate OperationsOk(member: MemberId, nextSequence: nat, operations: Operations, objects: Objects) {
    && nextSequence > 0
    && (forall op :: op in operations ==> 0 < operations[op].sequence < nextSequence)
    && (forall a, b :: a in operations && b in operations && operations[a].sequence == operations[b].sequence ==> a == b)
    && (forall op :: op in operations && operations[op].objectId.Some? ==>
          Claims(member, objects, operations[op], operations[op].objectId.value))
  }

  ghost predicate Claims(member: MemberId, objects: Objects, row: Operation, id: ObjectId) {
    && id in objects && objects[id].complete
    && id.manifest.origin == member && id.manifest.sequence == row.sequence
  }

  /** Target receipts belong to committed, announced objects of this member and to their targets. */
  ghost predicate ReceiptsOk(announcements: map<ObjectId, Announcement>, operations: Operations,
    targetReceipts: Receipts, originAcks: map<(ObjectId, MemberId), Ack>)
  {
    && (forall k :: k in targetReceipts ==>
          && k.0 in announcements && Committed(operations, k.0) && k.1 in k.0.manifest.targets
          && targetReceipts[k].objectId == k.0 && targetReceipts[k].actor == k.1)
    && (forall k :: k in originAcks ==>
          k in targetReceipts && originAcks[k].receiptId == ReceiptId(targetReceipts[k])
          && originAcks[k].objectId == k.0 && originAcks[k].actor == k.1)
  }

  ghost predicate AllConfirmed(id: ObjectId, targetReceipts: Receipts) {
    forall t :: t in id.manifest.targets ==> (id, t) in targetReceipts
  }

  /** The outbox holds exactly the committed objects that some target has not confirmed. */
  ghost predicate OutboxOk(operations: Operations, targetReceipts: Receipts, outbox: set<ObjectId>) {
    forall id :: id in outbox <==> Committed(operations, id) && !AllConfirmed(id, targetReceipts)
  }

  ghost predicate WithinTotals(row: Logical, linked: map<ObjectId, nat>) {
    |linked| <= row.audienceCount && Total(linked) <= row.targetCount
  }

  /** Links join committed objects to existing logical messages, within the declared totals. */
  ghost predicate LinksOk(operations: Operations, logical: map<LogicalId, Logical>, links: map<ObjectId, Link>) {
    && (forall id :: id in links ==>
          Committed(operations, id) && links[id].logical in logical && links[id].targetCount == |id.manifest.targets|)
    && (forall l :: l in logical ==> WithinTotals(logical[l], LinkRows(links, l)))
  }

  ghost predicate Inv(member: MemberId, db: Db) {
    && ObjectsOk(db.objects)
    && ChunksOk(db.objects, db.chunks)
    && CompleteOk(db.objects, db.chunks)
    && ModesOk(db.objects, db.announcements)
    && RelayOk(member, db.objects, db.announcements, db.relayOutbox, db.relayMetadata)
    && DeliveriesOk(member, db.objects, db.announcements, db.localDeliveries, db.deliveries, db.acknowledged)
    && OperationsOk(member, db.nextSequence, db.operations, db.objects)
    && ReceiptsOk(db.announcements, db.operations, db.targetReceipts, db.originAcks)
    && OutboxOk(db.operations, db.targetReceipts, db.outbox)
    && LinksOk(db.operations, db.logical, db.links)
  }

  /** Rows of objects that are not deleted stay as they are. */
  ghost predicate Kept<V>(objects': Objects, rows: map<ObjectId, V>, rows': map<ObjectId, V>) {
    forall id :: id in rows && id in objects' ==> id in rows' && rows'[id] == rows[id]
  }

  /** Objects keep their mode: those without an announcement never get one. */
  ghost predicate ModeKept(objects: Objects, announcements: map<ObjectId, Announcement>, announcements': map<ObjectId, Announcement>) {
    forall id :: id in objects && id in announcements' ==> id in announcements
  }

  ghost predicate CompleteKept(objects: Objects, objects': Objects) {
    forall id :: id in objects && id in objects' && objects[id].complete ==> objects'[id].complete
  }

  /** What a transaction never changes about an object it does not delete. */
  ghost predicate Persists(db: Db, db': Db) {
    && db.nextSequence <= db'.nextSequence
    && CompleteKept(db.objects, db'.objects)
    && ModeKept(db.objects, db.announcements, db'.announcements)
    && Kept(db'.objects, db.announcements, db'.announcements)
    && Kept(db'.objects, db.relayMetadata, db'.relayMetadata)
    && Kept(db'.objects, db.localDeliveries, db'.localDeliveries)
    && Kept(db'.objects, db.deliveries, db'.deliveries)
  }

  lemma EmptyInv(member: MemberId)
    ensures Inv(member, EMPTY)
  {
    assert LinkRows(map[], 0) == map[];
  }

  // ----- additions to the objects table -----

  /** More rows, or rows marked complete; nothing removed or replaced. */
  ghost predicate Grows(objects: Objects, objects': Objects) {
    forall id :: id in objects ==>
      id in objects' && objects'[id].manifest == objects[id].manifest && (objects[id].complete ==> objects'[id].complete)
  }

  lemma GrowKeeps(member: MemberId, db: Db, objects': Objects)
    requires Inv(member, db) && Grows(db.objects, objects')
    ensures ChunksOk(objects', db.chunks) && ModesOk(objects', db.announcements)
    ensures RelayOk(member, objects', db.announcements, db.relayOutbox, db.relayMetadata)
    ensures DeliveriesOk(member, objects', db.announcements, db.localDeliveries, db.deliveries, db.acknowledged)
    ensures OperationsOk(member, db.nextSequence, db.operations, objects')
  {
    hide ObjectsOk, CompleteOk, ReceiptsOk, OutboxOk, LinksOk, FrameBound, Manifest.Fits;
  }

  lemma InsertObjects(objects: Objects, m: Manifest)
    requires ObjectsOk(objects) && m.Valid() && m.Id() !in objects
    requires forall id :: id in objects ==> !SameSlot(objects[id].manifest, m)
    ensures ObjectsOk(objects[m.Id() := ObjectRow(m, false)])
  {
    var objects' := objects[m.Id() := ObjectRow(m, false)];
    forall a, b | a in objects' && b in objects' && SameSlot(a.manifest, b.manifest) ensures a == b {
      assert a in objects ==> objects[a].manifest == a.manifest;
      assert b in objects ==> objects[b].manifest == b.manifest;
    }
  }

  lemma InsertedCompleteOk(objects: Objects, chunks: map<(ObjectId, nat), Bytes>, m: Manifest)
    requires CompleteOk(objects, chunks) && m.Id() !in objects
    ensures CompleteOk(objects[m.Id() := ObjectRow(m, false)], chunks)
  {
    hide AllChunks;
  }

  /** The effect of the insertion on the invariant; only the objects table changes, by at most one row. */
  lemma InsertManifestKeeps(member: MemberId, db: Db, limits: Limits, m: Manifest)
    requires Inv(member, db) && m.Valid() && InsertManifest(db, limits, m).Ok?
    ensures
      var objects' := InsertManifest(db, limits, m).value;
      && Inv(member, db.(objects := objects')) && m.Id() in objects' && Grows(db.objects, objects')
      && (m.Id() in db.objects ==> objects' == db.objects)
      && (forall id :: id in objects' ==> id in db.objects || id == m.Id())
  {
    hide ObjectsOk, ChunksOk, CompleteOk, ModesOk, RelayOk, DeliveriesOk, OperationsOk, ReceiptsOk, OutboxOk, LinksOk, Manifest.Valid,
      Total, ReservedBytes, SameSlot;
    if m.Id() !in db.objects {
      var objects' := db.objects[m.Id() := ObjectRow(m, false)];
      GrowKeeps(member, db, objects');
      InsertObjects(db.objects, m);
      InsertedCompleteOk(db.objects, db.chunks, m);
      assert Inv(member, db.(objects := objects'));
    }
  }

  // ----- reservations and logical messages -----

  /** Rewriting reservations without changing which objects are committed keeps what depends on that. */
  lemma RecommitKeeps(db: Db, operations: Operations)
    requires forall id :: Committed(operations, id) <==> Committed(db.operations, id)
    requires ReceiptsOk(db.announcements, db.operations, db.targetReceipts, db.originAcks)
    requires OutboxOk(db.operations, db.targetReceipts, db.outbox)
    requires LinksOk(db.operations, db.logical, db.links)
    ensures ReceiptsOk(db.announcements, operations, db.targetReceipts, db.originAcks)
    ensures OutboxOk(operations, db.targetReceipts, db.outbox)
    ensures LinksOk(operations, db.logical, db.links)
  {
    hide Committed, WithinTotals, LinkRows, AllConfirmed;
  }

  lemma NewReservation(member: MemberId, sequence: nat, operations: Operations, objects: Objects, op: OperationId, commandHash: nat)
    requires OperationsOk(member, sequence, operations, objects) && op !in operations
    ensures
      var operations' := operations[op := Operation(commandHash, sequence, None)];
      && OperationsOk(member, sequence + 1, operations', objects)
      && forall id :: Committed(operations', id) <==> Committed(operations, id)
  {
    hide Claims;
    var operations' := operations[op := Operation(commandHash, sequence, None)];
    forall id ensures Committed(operations', id) <==> Committed(operations, id) {
      if Committed(operations, id) {
        var p :| p in operations && operations[p].objectId == Some(id);
        assert p in operations' && operations'[p].objectId == Some(id);
      }
    }
  }

  lemma ReserveKeeps(member: MemberId, db: Db, limits: Limits, op: OperationId, commandHash: nat)
    requires Inv(member, db)
    ensures var db' := After(db, Reserve(db, limits, op, commandHash)); Inv(member, db') && Persists(db, db')
  {
    hide ObjectsOk, ChunksOk, CompleteOk, ModesOk, RelayOk, DeliveriesOk, OperationsOk, ReceiptsOk, OutboxOk, LinksOk, Committed;
    if op !in db.operations {
      var operations' := db.operations[op := Operation(commandHash, db.nextSequence, None)];
      NewReservation(member, db.nextSequence, db.operations, db.objects, op, commandHash);
      RecommitKeeps(db, operations');
      var next := db.(nextSequence := db.nextSequence + 1, operations := operations');
      assert Inv(member, next);
      assert Persists(db, next);
      assert After(db, Reserve(db, limits, op, commandHash)) in {db, next};
    }
  }

  lemma NoLinks(operations: Operations, logical: map<LogicalId, Logical>, links: map<ObjectId, Link>, id: LogicalId, row: Logical)
    requires LinksOk(operations, logical, links) && id !in logical
    ensures WithinTotals(row, LinkRows(links, id))
  {
    hide Committed;
    assert LinkRows(links, id) == map[];
  }

  lemma NewLogical(operations: Operations, logical: map<LogicalId, Logical>, links: map<ObjectId, Link>, id: LogicalId, row: Logical)
    requires LinksOk(operations, logical, links) && id !in logical
    ensures LinksOk(operations, logical[id := row], links)
  {
    hide Committed, WithinTotals, LinkRows;
    NoLinks(operations, logical, links, id, row);
  }

  lemma BeginKeeps(member: MemberId, db: Db, id: LogicalId, targetCount: nat, audienceCount: nat, expiresAt: nat, now: nat)
    requires Inv(member, db)
    ensures
      var db' := After(db, BeginLogical(db, id, targetCount, audienceCount, expiresAt, now));
      Inv(member, db') && Persists(db, db')
  {
    hide ObjectsOk, ChunksOk, CompleteOk, ModesOk, RelayOk, DeliveriesOk, OperationsOk, ReceiptsOk, OutboxOk, LinksOk;
    if id !in db.logical {
      NewLogical(db.operations, db.logical, db.links, id, Logical(now, expiresAt, targetCount, audienceCount));
    }
  }

  // ----- outgoing objects -----

  /** The whole object replaces the row the insertion made. */
  lemma StoreChunks(objects: Objects, chunks: map<(ObjectId, nat), Bytes>, prepared: PreparedObject)
    requires ObjectsOk(objects) && ChunksOk(objects, chunks) && CompleteOk(objects, chunks)
    requires prepared.Valid() && prepared.manifest.Id() in objects
    ensures
      var id := prepared.manifest.Id();
      var objects', chunks' := objects[id := ObjectRow(prepared.manifest, true)], chunks + ChunkRows(id, prepared.chunks);
      ObjectsOk(objects') && ChunksOk(objects', chunks') && CompleteOk(objects', chunks') && Grows(objects, objects')
  {
    hide SameSlot, Manifest.Valid, Manifest.Fits;
    var id := prepared.manifest.Id();
    var objects', chunks' := objects[id := ObjectRow(prepared.manifest, true)], chunks + ChunkRows(id, prepared.chunks);
    assert objects[id].manifest.Id() == id;
    forall a, b | a in objects' && b in objects' && SameSlot(a.manifest, b.manifest) ensures a == b {
      assert a in objects && b in objects;
    }
    assert AllChunks(id, chunks') by {
      forall i | 0 <= i < |id.manifest.hashes| ensures (id, i) in chunks' {
        assert (id, i) in ChunkRows(id, prepared.chunks);
      }
    }
    forall other | other in objects' && objects'[other].complete && other != id ensures AllChunks(other, chunks') {
      assert AllChunks(other, chunks);
    }
  }


  /** A committed object joins the outbox: its targets cannot have confirmed it before. */
  lemma CommitOperation(member: MemberId, db: Db, objects': Objects, announcements': map<ObjectId, Announcement>, op: OperationId, id: ObjectId)
    requires op in db.operations && db.operations[op].objectId.None?
    requires OperationsOk(member, db.nextSequence, db.operations, objects')
    requires ReceiptsOk(db.announcements, db.operations, db.targetReceipts, db.originAcks)
    requires OutboxOk(db.operations, db.targetReceipts, db.outbox)
    requires forall a :: a in db.announcements ==> a in announcements'
    requires !Claimed(db.operations, op, id) && Claims(member, objects', db.operations[op], id) && |id.manifest.targets| > 0
    ensures
      var operations' := db.operations[op := db.operations[op].(objectId := Some(id))];
      && OperationsOk(member, db.nextSequence, operations', objects')
      && ReceiptsOk(announcements', operations', db.targetReceipts, db.originAcks)
      && OutboxOk(operations', db.targetReceipts, db.outbox + {id})
      && Committed(operations', id) && !Committed(db.operations, id)
      && (forall other :: Committed(db.operations, other) ==> Committed(operations', other))
  {
    hide Claims, OperationsOk, ReceiptsOk, OutboxOk;
    var operations' := db.operations[op := db.operations[op].(objectId := Some(id))];
    forall other | other != id ensures Committed(operations', other) <==> Committed(db.operations, other) {
      if Committed(db.operations, other) {
        var p :| p in db.operations && db.operations[p].objectId == Some(other);
        assert p in operations' && operations'[p].objectId == Some(other);
      }
    }
    assert Committed(operations', id) by { assert operations'[op].objectId == Some(id); }
    assert !Committed(db.operations, id);
    CommitOperations(member, db.nextSequence, db.operations, objects', op, id);
    CommitOutbox(db, announcements', operations', id);
  }

  lemma CommitOperations(member: MemberId, sequence: nat, operations: Operations, objects': Objects, op: OperationId, id: ObjectId)
    requires op in operations && OperationsOk(member, sequence, operations, objects') && Claims(member, objects', operations[op], id)
    ensures OperationsOk(member, sequence, operations[op := operations[op].(objectId := Some(id))], objects')
  {
  }

  lemma CommitOutbox(db: Db, announcements': map<ObjectId, Announcement>, operations': Operations, id: ObjectId)
    requires ReceiptsOk(db.announcements, db.operations, db.targetReceipts, db.originAcks)
    requires OutboxOk(db.operations, db.targetReceipts, db.outbox)
    requires forall a :: a in db.announcements ==> a in announcements'
    requires forall other :: other != id ==> (Committed(operations', other) <==> Committed(db.operations, other))
    requires Committed(operations', id) && !Committed(db.operations, id) && |id.manifest.targets| > 0
    ensures ReceiptsOk(announcements', operations', db.targetReceipts, db.originAcks)
    ensures OutboxOk(operations', db.targetReceipts, db.outbox + {id})
  {
    hide Committed;
    assert !AllConfirmed(id, db.targetReceipts) by {
      assert id.manifest.targets[0] in id.manifest.targets;
    }
  }

  lemma LinkedRows(links: map<ObjectId, Link>, id: ObjectId, logical: LogicalId, targetCount: nat, l: LogicalId)
    requires id !in links
    ensures LinkRows(links[id := Link(logical, targetCount)], l) ==
              (if l == logical then LinkRows(links, l)[id := targetCount] else LinkRows(links, l))
  {
  }

  lemma LinkWithin(row: Logical, linked: map<ObjectId, nat>, id: ObjectId, targetCount: nat)
    requires id !in linked && |linked| < row.audienceCount && Total(linked) + targetCount <= row.targetCount
    ensures WithinTotals(row, linked[id := targetCount])
  {
    TotalInsert(linked, id, targetCount);
  }

  /** A link within the declared totals keeps them. */
  lemma LinkKeeps(db: Db, operations': Operations, logical: LogicalId, id: ObjectId, targetCount: nat)
    requires LinksOk(db.operations, db.logical, db.links)
    requires forall other :: Committed(db.operations, other) ==> Committed(operations', other)
    requires Committed(operations', id) && targetCount == |id.manifest.targets|
    requires LinkLogical(db, logical, id, targetCount).Ok?
    ensures LinksOk(operations', db.logical, LinkLogical(db, logical, id, targetCount).value)
  {
    hide Committed, Total, LinkRows, WithinTotals;
    if id !in db.links {
      var links' := db.links[id := Link(logical, targetCount)];
      forall l | l in db.logical ensures WithinTotals(db.logical[l], LinkRows(links', l)) {
        LinkedRows(db.links, id, logical, targetCount, l);
        if l == logical { LinkWithin(db.logical[l], LinkRows(db.links, l), id, targetCount); }
      }
      assert LinksOk(operations', db.logical, links');
    }
  }

  lemma LinksStay(operations: Operations, operations': Operations, logical: map<LogicalId, Logical>, links: map<ObjectId, Link>)
    requires LinksOk(operations, logical, links)
    requires forall id :: Committed(operations, id) ==> Committed(operations', id)
    ensures LinksOk(operations', logical, links)
  {
    hide Committed, LinkRows, WithinTotals;
  }

  /** A new announcement may only meet an object that was not delivered before. */
  lemma RecordKeeps(member: MemberId, db: Db, id: ObjectId, announcement: Option<Announcement>)
    requires Inv(member, db) && id in db.objects
    requires announcement.Some? ==> announcement.value.manifest.Id() == id
    requires announcement.Some? && id !in db.announcements ==> id !in db.localDeliveries
    ensures
      var announcements' := RecordAnnouncement(db, id, announcement);
      && Inv(member, db.(announcements := announcements'))
      && Kept(db.objects, db.announcements, announcements')
      && (forall other :: other in announcements' && other != id ==> other in db.announcements)
  {
    hide ObjectsOk, ChunksOk, CompleteOk, OperationsOk, OutboxOk, LinksOk, FrameBound, Committed, AllChunks;
    if announcement.Some? && id !in db.announcements {
      var announcements' := db.announcements[id := announcement.value];
      RecordDeliveries(member, db, id, announcement.value);
      RecordReceipts(db, announcements');
      hide DeliveriesOk, ReceiptsOk;
      assert Inv(member, db.(announcements := announcements'));
    }
  }

  lemma RecordDeliveries(member: MemberId, db: Db, id: ObjectId, a: Announcement)
    requires DeliveriesOk(member, db.objects, db.announcements, db.localDeliveries, db.deliveries, db.acknowledged)
    requires id !in db.localDeliveries
    ensures DeliveriesOk(member, db.objects, db.announcements[id := a], db.localDeliveries, db.deliveries, db.acknowledged)
  {
  }

  lemma RecordReceipts(db: Db, announcements': map<ObjectId, Announcement>)
    requires ReceiptsOk(db.announcements, db.operations, db.targetReceipts, db.originAcks)
    requires forall a :: a in db.announcements ==> a in announcements'
    ensures ReceiptsOk(announcements', db.operations, db.targetReceipts, db.originAcks)
  {
    hide Committed;
  }

  lemma LegacyDeliveries(member: MemberId, db: Db, id: ObjectId, now: nat)
    requires Inv(member, db)
    requires id in db.objects && db.objects[id].complete && (id !in db.announcements || id in db.localDeliveries)
    ensures Inv(member, db.(localDeliveries := InsertOrIgnore(db.localDeliveries, id, now)))
  {
    hide ObjectsOk, ChunksOk, CompleteOk, ModesOk, RelayOk, OperationsOk, ReceiptsOk, OutboxOk, LinksOk;
    assert Inv(member, db.(localDeliveries := InsertOrIgnore(db.localDeliveries, id, now)));
  }

  /** Storing the whole object; the reservation still has to name it. */
  lemma StoreKeeps(member: MemberId, db: Db, prepared: PreparedObject)
    requires Inv(member, db) && prepared.Valid() && prepared.manifest.Id() in db.objects
    ensures
      var id := prepared.manifest.Id();
      var objects', chunks' := db.objects[id := ObjectRow(prepared.manifest, true)], db.chunks + ChunkRows(id, prepared.chunks);
      Inv(member, db.(objects := objects', chunks := chunks')) && Grows(db.objects, objects')
  {
    hide ObjectsOk, ChunksOk, CompleteOk, ModesOk, RelayOk, DeliveriesOk, OperationsOk, ReceiptsOk, OutboxOk, LinksOk, Grows,
      PreparedObject.Valid;
    var id := prepared.manifest.Id();
    var objects', chunks' := db.objects[id := ObjectRow(prepared.manifest, true)], db.chunks + ChunkRows(id, prepared.chunks);
    StoreChunks(db.objects, db.chunks, prepared);
    GrowKeeps(member, db, objects');
    assert Inv(member, db.(objects := objects', chunks := chunks'));
  }

  /** Naming the stored object in its reservation puts it into the outbox and links it. */
  lemma NameKeeps(member: MemberId, db: Db, op: OperationId, id: ObjectId, logical: Option<LogicalId>)
    requires Inv(member, db) && op in db.operations && db.operations[op].objectId.None?
    requires !Claimed(db.operations, op, id) && Claims(member, db.objects, db.operations[op], id) && |id.manifest.targets| > 0
    requires logical.Some? ==> LinkLogical(db, logical.value, id, |id.manifest.targets|).Ok?
    ensures
      Inv(member, db.(operations := db.operations[op := db.operations[op].(objectId := Some(id))],
                      outbox := db.outbox + {id},
                      links := if logical.Some? then LinkLogical(db, logical.value, id, |id.manifest.targets|).value else db.links))
  {
    hide ObjectsOk, ChunksOk, CompleteOk, ModesOk, RelayOk, DeliveriesOk, OperationsOk, ReceiptsOk, OutboxOk, LinksOk,
      Committed, Claimed, Claims, LinkLogical;
    var operations' := db.operations[op := db.operations[op].(objectId := Some(id))];
    CommitOperation(member, db, db.objects, db.announcements, op, id);
    var links' := if logical.Some? then LinkLogical(db, logical.value, id, |id.manifest.targets|).value else db.links;
    if logical.Some? {
      LinkKeeps(db, operations', logical.value, id, |id.manifest.targets|);
    } else {
      LinksStay(db.operations, operations', db.logical, db.links);
    }
    assert Inv(member, db.(operations := operations', outbox := db.outbox + {id}, links := links'));
  }

  /** An object that may take this announcement has no local delivery unless it already carries it. */
  lemma ModeDelivery(member: MemberId, db: Db, id: ObjectId, announcement: Option<Announcement>)
    requires Inv(member, db) && ModeAllows(db, id, announcement)
    ensures announcement.Some? && id !in db.announcements ==> id !in db.localDeliveries
    ensures announcement.None? ==> id !in db.announcements
    ensures announcement.Some? && id in db.objects ==> id in db.announcements && db.announcements[id] == announcement.value
  {
    hide ObjectsOk, ChunksOk, CompleteOk, RelayOk, OperationsOk, ReceiptsOk, OutboxOk, LinksOk;
  }

  lemma DeliverLegacyKeeps(member: MemberId, db: Db, m: Manifest, now: nat, announcement: Option<Announcement>)
    requires Inv(member, db) && m.Id() in db.objects && db.objects[m.Id()].complete
    requires announcement.None? ==> m.Id() !in db.announcements
    ensures Inv(member, db.(localDeliveries := DeliverLegacy(db, member, m, now, announcement)))
  {
    hide Inv, InsertOrIgnore;
    if announcement.None? && member in m.targets { LegacyDeliveries(member, db, m.Id(), now); }
  }

  lemma StoredPersists(db: Db, limits: Limits, prepared: PreparedObject, announcement: Option<Announcement>, member: MemberId, now: nat)
    requires InsertManifest(db, limits, prepared.manifest).Ok? && ModeAllows(db, prepared.manifest.Id(), announcement)
    ensures
      var m, id := prepared.manifest, prepared.manifest.Id();
      && CompleteKept(db.objects, InsertManifest(db, limits, m).value[id := ObjectRow(m, true)])
      && ModeKept(db.objects, db.announcements, RecordAnnouncement(db, id, announcement))
      && (forall objects' :: Kept(objects', db.announcements, RecordAnnouncement(db, id, announcement)))
      && (forall objects' :: Kept(objects', db.localDeliveries, DeliverLegacy(db, member, m, now, announcement)))
  {
    hide ReservedBytes, Total, SameSlot;
  }

  /** The object stored with its announcement and, without one, delivered locally. */
  lemma StoreOutgoingKeeps(member: MemberId, db: Db, limits: Limits, prepared: PreparedObject, now: nat, announcement: Option<Announcement>)
    requires Inv(member, db) && prepared.Valid()
    requires announcement.Some? ==> announcement.value.manifest == prepared.manifest
    requires ModeAllows(db, prepared.manifest.Id(), announcement)
    requires InsertManifest(db, limits, prepared.manifest).Ok?
    ensures
      var m, id := prepared.manifest, prepared.manifest.Id();
      var db' := db.(objects := InsertManifest(db, limits, m).value[id := ObjectRow(m, true)],
                     announcements := RecordAnnouncement(db, id, announcement),
                     chunks := db.chunks + ChunkRows(id, prepared.chunks),
                     localDeliveries := DeliverLegacy(db, member, m, now, announcement));
      Inv(member, db') && Persists(db, db')
  {
    hide Inv, InsertManifest, ChunkRows, InsertOrIgnore, Manifest.Valid, ModeAllows;
    var m, id := prepared.manifest, prepared.manifest.Id();
    ModeDelivery(member, db, id, announcement);
    InsertManifestKeeps(member, db, limits, m);
    var db1 := db.(objects := InsertManifest(db, limits, m).value);
    StoreKeeps(member, db1, prepared);
    var db2 := db1.(objects := db1.objects[id := ObjectRow(m, true)], chunks := db1.chunks + ChunkRows(id, prepared.chunks));
    RecordKeeps(member, db2, id, announcement);
    var db3 := db2.(announcements := RecordAnnouncement(db2, id, announcement));
    DeliverLegacyKeeps(member, db3, m, now, announcement);
    StoredPersists(db, limits, prepared, announcement, member, now);
  }

  lemma CommitNewKeeps(member: MemberId, db: Db, limits: Limits, op: OperationId, prepared: PreparedObject,
    now: nat, announcement: Option<Announcement>, logical: Option<LogicalId>)
    requires Inv(member, db) && prepared.Valid() && op in db.operations && db.operations[op].objectId.None?
    requires prepared.manifest.origin == member && prepared.manifest.sequence == db.operations[op].sequence
    requires announcement.Some? ==> announcement.value.manifest == prepared.manifest
    requires ModeAllows(db, prepared.manifest.Id(), announcement)
    requires CommitNew(db, member, limits, op, prepared, now, announcement, logical).Done?
    ensures
      var db' := CommitNew(db, member, limits, op, prepared, now, announcement, logical).db;
      Inv(member, db') && Persists(db, db')
  {
    hide Inv, InsertManifest, RecordAnnouncement, ChunkRows, DeliverLegacy, ModeAllows, ChunksClash, Total, LinkRows,
      CompleteKept, ModeKept, Kept, SameSlot;
    var m, id := prepared.manifest, prepared.manifest.Id();
    StoreOutgoingKeeps(member, db, limits, prepared, now, announcement);
    var stored := db.(objects := InsertManifest(db, limits, m).value[id := ObjectRow(m, true)],
                      announcements := RecordAnnouncement(db, id, announcement),
                      chunks := db.chunks + ChunkRows(id, prepared.chunks),
                      localDeliveries := DeliverLegacy(db, member, m, now, announcement));
    NameKeeps(member, stored, op, id, logical);
  }

  lemma CommitKeeps(member: MemberId, db: Db, limits: Limits, op: OperationId, commandHash: nat, prepared: PreparedObject,
    now: nat, announcement: Option<Announcement>, logical: Option<LogicalId>)
    requires Inv(member, db) && prepared.Valid()
    requires announcement.Some? ==> announcement.value.manifest == prepared.manifest
    ensures
      var db' := After(db, CommitOutgoing(db, member, limits, op, commandHash, prepared, now, announcement, logical));
      Inv(member, db') && Persists(db, db')
  {
    hide Inv, CommitNew, ModeAllows;
    var o := CommitOutgoing(db, member, limits, op, commandHash, prepared, now, announcement, logical);
    if o.Done? && db.operations[op].objectId.None? {
      hide Persists;
      CommitNewKeeps(member, db, limits, op, prepared, now, announcement, logical);
    }
  }

  // ----- incoming objects -----

  lemma AnnounceKeeps(member: MemberId, db: Db, limits: Limits, m: Manifest, now: nat)
    requires Inv(member, db) && m.Valid()
    ensures var db' := After(db, Announce(db, limits, m, now)); Inv(member, db') && Persists(db, db')
  {
    hide Inv, InsertManifest, ModeAllows, Manifest.Valid;
    if Announce(db, limits, m, now).Done? {
      InsertManifestKeeps(member, db, limits, m);
      var db' := db.(objects := InsertManifest(db, limits, m).value);
      assert Persists(db, db');
      assert After(db, Announce(db, limits, m, now)) == db';
    }
  }

  lemma AnnounceAuthenticatedKeeps(member: MemberId, db: Db, limits: Limits, a: Authenticated, roster: Roster, now: nat)
    requires Inv(member, db) && a.Manifest().Valid()
    ensures var db' := After(db, AnnounceAuthenticated(db, limits, a, roster, now)); Inv(member, db') && Persists(db, db')
  {
    hide Inv, InsertManifest, ModeAllows, Manifest.Valid, InsertOrIgnore;
    var m, id := a.Manifest(), a.Manifest().Id();
    if AnnounceAuthenticated(db, limits, a, roster, now).Done? {
      ModeDelivery(member, db, id, Some(a.announcement));
      InsertManifestKeeps(member, db, limits, m);
      var db1 := db.(objects := InsertManifest(db, limits, m).value);
      RecordKeeps(member, db1, id, Some(a.announcement));
      var db' := db1.(announcements := RecordAnnouncement(db, id, Some(a.announcement)));
      AnnouncePersists(db, id, a.announcement);
      assert Inv(member, db');
      assert Persists(db, db') by { hide RecordAnnouncement; }
      assert After(db, AnnounceAuthenticated(db, limits, a, roster, now)) == db';
    }
  }

  lemma AnnouncePersists(db: Db, id: ObjectId, a: Announcement)
    requires ModeAllows(db, id, Some(a))
    ensures ModeKept(db.objects, db.announcements, RecordAnnouncement(db, id, Some(a)))
    ensures forall objects' :: Kept(objects', db.announcements, RecordAnnouncement(db, id, Some(a)))
  {
  }

  /** A verified chunk keeps the invariant; when the count is reached, no index is missing. */
  lemma InsertChunkKeeps(member: MemberId, db: Db, id: ObjectId, index: nat, bytes: Bytes)
    requires Inv(member, db) && id in db.objects && db.objects[id].manifest.VerifyChunk(index, bytes).Ok?
    requires InsertChunk(db, id, index, bytes).Ok?
    ensures
      var chunks := InsertChunk(db, id, index, bytes).value;
      && Inv(member, db.(chunks := chunks))
      && (|IndicesIn(chunks, id)| == |db.objects[id].manifest.hashes| ==> AllChunks(id, chunks))
  {
    hide RelayOk, DeliveriesOk, OperationsOk, ReceiptsOk, OutboxOk, LinksOk, ModesOk, AllChunks, SameSlot, Manifest.Valid;
    var chunks := InsertChunk(db, id, index, bytes).value;
    InsertChunkTables(db.objects, db.chunks, id, index, bytes);
    assert Inv(member, db.(chunks := chunks));
    CountedChunks(db.objects, chunks, id);
  }

  lemma InsertChunkTables(objects: Objects, chunks: map<(ObjectId, nat), Bytes>, id: ObjectId, index: nat, bytes: Bytes)
    requires ChunksOk(objects, chunks) && CompleteOk(objects, chunks)
    requires id in objects && objects[id].manifest.Fits(index, bytes)
    ensures ChunksOk(objects, chunks[(id, index) := bytes]) && CompleteOk(objects, chunks[(id, index) := bytes])
  {
    hide Manifest.Fits;
    forall other | other in objects && objects[other].complete ensures AllChunks(other, chunks[(id, index) := bytes]) {
      assert AllChunks(other, chunks);
    }
  }

  /** As many chunks as the manifest names means all of them: every stored index is one of its indices. */
  lemma CountedChunks(objects: Objects, chunks: map<(ObjectId, nat), Bytes>, id: ObjectId)
    requires ObjectsOk(objects) && ChunksOk(objects, chunks) && id in objects
    ensures |IndicesIn(chunks, id)| == |objects[id].manifest.hashes| <==> AllChunks(id, chunks)
    ensures |IndicesIn(chunks, id)| <= |objects[id].manifest.hashes|
  {
    hide SameSlot, Manifest.Valid;
    var n := |objects[id].manifest.hashes|;
    var all := Below(n);
    forall i | i in IndicesIn(chunks, id) ensures i in all {
      assert (id, i) in chunks;
    }
    SubsetCardinality(IndicesIn(chunks, id), all);
    if IndicesIn(chunks, id) == all {
      forall i | 0 <= i < n ensures (id, i) in chunks { assert i in all; }
    }
    if AllChunks(id, chunks) {
      forall i | i in all ensures i in IndicesIn(chunks, id) { assert (id, i) in chunks; }
    }
  }

  lemma CompletedKeeps(member: MemberId, db: Db, id: ObjectId)
    requires Inv(member, db) && AllChunks(id, db.chunks)
    ensures Inv(member, db.(objects := Completed(db.objects, id))) && Grows(db.objects, Completed(db.objects, id))
  {
    hide ChunksOk, RelayOk, DeliveriesOk, OperationsOk, ReceiptsOk, OutboxOk, LinksOk, ModesOk, AllChunks, SameSlot, Manifest.Valid;
    if id in db.objects {
      var objects' := Completed(db.objects, id);
      GrowKeeps(member, db, objects');
      assert Inv(member, db.(objects := objects'));
    }
  }

  /** Custody of a complete foreign object, with a bound frame if it has an announcement. */
  lemma CustodyKeeps(member: MemberId, db: Db, id: ObjectId, now: nat, relay: Option<RelayMetadata>)
    requires Inv(member, db) && id in db.objects && db.objects[id].complete && id.manifest.origin != member
    requires relay.Some? ==> id in db.announcements && RelayFrames(db, id, id.manifest, relay.value).Ok?
    ensures
      Inv(member, db.(relayOutbox := InsertOrIgnore(db.relayOutbox, id, now),
                      relayMetadata := if relay.Some? then RelayFrames(db, id, id.manifest, relay.value).value else db.relayMetadata))
  {
    hide ObjectsOk, ChunksOk, CompleteOk, ModesOk, DeliveriesOk, OperationsOk, ReceiptsOk, OutboxOk, LinksOk, FrameBound;
    var relayOutbox' := InsertOrIgnore(db.relayOutbox, id, now);
    var relayMetadata' := if relay.Some? then RelayFrames(db, id, id.manifest, relay.value).value else db.relayMetadata;
    assert RelayOk(member, db.objects, db.announcements, relayOutbox', relayMetadata');
    hide RelayOk;
    assert Inv(member, db.(relayOutbox := relayOutbox', relayMetadata := relayMetadata'));
  }

  lemma RowOf(member: MemberId, db: Db, id: ObjectId)
    requires Inv(member, db) && id in db.objects
    ensures db.objects[id].manifest == id.manifest && id.manifest.Valid()
  {
    hide ChunksOk, CompleteOk, RelayOk, DeliveriesOk, OperationsOk, ReceiptsOk, OutboxOk, LinksOk, ModesOk;
    assert db.objects[id].manifest.Id() == id;
  }

  lemma CompleteChunkKeeps(member: MemberId, db: Db, id: ObjectId, chunks: map<(ObjectId, nat), Bytes>, now: nat, relay: Option<RelayMetadata>)
    requires Inv(member, db.(chunks := chunks)) && id in db.objects && AllChunks(id, chunks)
    requires if relay.Some? then id in db.announcements else id !in db.announcements
    requires CompleteChunk(db, member, id, chunks, now, relay).Done?
    ensures var db' := CompleteChunk(db, member, id, chunks, now, relay).db; Inv(member, db') && Persists(db, db')
  {
    hide Inv, AllChunks, InsertOrIgnore, RelayFrames;
    var m := id.manifest;
    var db1 := db.(chunks := chunks);
    RowOf(member, db1, id);
    CompletedKeeps(member, db1, id);
    var db2 := db1.(objects := Completed(db.objects, id));
    var foreign, local := m.origin != member, relay.None? && member in m.targets;
    var db3 := db2;
    if foreign {
      SameFrames(db, db2, id, relay);
      CustodyKeeps(member, db2, id, now, relay);
      db3 := db2.(relayOutbox := InsertOrIgnore(db.relayOutbox, id, now),
                  relayMetadata := if relay.Some? then RelayFrames(db, id, m, relay.value).value else db.relayMetadata);
    }
    assert Inv(member, db3);
    var db4 := db3;
    if local {
      LegacyDeliveries(member, db3, id, now);
      db4 := db3.(localDeliveries := InsertOrIgnore(db.localDeliveries, id, now));
    }
    assert Inv(member, db4);
    assert CompleteChunk(db, member, id, chunks, now, relay).db == db4;
    CompletePersists(db, id, now, relay);
  }

  lemma SameFrames(db: Db, db': Db, id: ObjectId, relay: Option<RelayMetadata>)
    requires db'.relayMetadata == db.relayMetadata
    ensures relay.Some? ==> RelayFrames(db, id, id.manifest, relay.value) == RelayFrames(db', id, id.manifest, relay.value)
  {
  }

  lemma CompletePersists(db: Db, id: ObjectId, now: nat, relay: Option<RelayMetadata>)
    requires id in db.objects
    ensures CompleteKept(db.objects, Completed(db.objects, id))
    ensures forall objects' :: Kept(objects', db.localDeliveries, InsertOrIgnore(db.localDeliveries, id, now))
    ensures relay.Some? && RelayFrames(db, id, id.manifest, relay.value).Ok? ==>
      forall objects' :: Kept(objects', db.relayMetadata, RelayFrames(db, id, id.manifest, relay.value).value)
  {
    hide FrameBound;
  }

  lemma PutChunkKeeps(member: MemberId, db: Db, id: ObjectId, index: nat, bytes: Bytes, now: nat, relay: Option<RelayMetadata>)
    requires Inv(member, db)
    ensures var db' := After(db, PutChunk(db, member, id, index, bytes, now, relay)); Inv(member, db') && Persists(db, db')
  {
    hide Inv, AllChunks, InsertChunk, CompleteChunk, Manifest.VerifyChunk, IndicesIn;
    if PutChunk(db, member, id, index, bytes, now, relay).Done? {
      InsertChunkKeeps(member, db, id, index, bytes);
      var chunks := InsertChunk(db, id, index, bytes).value;
      if |IndicesIn(chunks, id)| == |db.objects[id].manifest.hashes| {
        hide Persists;
        CompleteChunkKeeps(member, db, id, chunks, now, relay);
      }
    }
  }

  lemma StageChunkKeeps(member: MemberId, db: Db, id: ObjectId, index: nat, bytes: Bytes, now: nat)
    requires Inv(member, db)
    ensures var db' := After(db, StageChunk(db, id, index, bytes, now)); Inv(member, db') && Persists(db, db')
  {
    hide Inv, AllChunks, InsertChunk, Manifest.VerifyChunk, IndicesIn;
    if StageChunk(db, id, index, bytes, now).Done? {
      InsertChunkKeeps(member, db, id, index, bytes);
    }
  }

  // ----- deliveries and receipts -----

  /** The chunk scan finds no error exactly when every chunk from index i on is stored and is the one the manifest names. */
  lemma {:induction false} NoChunkError(db: Db, id: ObjectId, m: Manifest, i: nat)
    requires i <= |m.hashes|
    ensures ChunkError(db, id, m, i).None? <==>
            (forall j :: i <= j < |m.hashes| ==> (id, j) in db.chunks && m.Fits(j, db.chunks[(id, j)]))
    decreases |m.hashes| - i
  {
    hide Manifest.Fits;
    if i < |m.hashes| {
      NoChunkError(db, id, m, i + 1);
    }
  }

  lemma DeliverTables(member: MemberId, db: Db, id: ObjectId, receipt: Receipt, now: nat)
    requires DeliveriesOk(member, db.objects, db.announcements, db.localDeliveries, db.deliveries, db.acknowledged)
    requires id in db.objects && db.objects[id].complete && id in db.announcements && id !in db.deliveries
    requires receipt.objectId == id && receipt.actor == member && receipt.origin == id.manifest.origin
    ensures DeliveriesOk(member, db.objects, db.announcements, db.localDeliveries[id := now], db.deliveries[id := receipt], db.acknowledged)
  {
  }

  lemma DeliverKeeps(member: MemberId, db: Db, id: ObjectId, receipt: Receipt, now: nat)
    requires Inv(member, db) && id in db.objects && db.objects[id].complete && id in db.announcements
    requires receipt.objectId == id && receipt.actor == member && receipt.origin == id.manifest.origin
    requires id !in db.localDeliveries && id !in db.deliveries
    ensures Inv(member, db.(localDeliveries := db.localDeliveries[id := now], deliveries := db.deliveries[id := receipt]))
  {
    hide ObjectsOk, ChunksOk, CompleteOk, ModesOk, RelayOk, OperationsOk, ReceiptsOk, OutboxOk, LinksOk;
    var localDeliveries', deliveries' := db.localDeliveries[id := now], db.deliveries[id := receipt];
    DeliverTables(member, db, id, receipt, now);
    hide DeliveriesOk;
    assert Inv(member, db.(localDeliveries := localDeliveries', deliveries := deliveries'));
  }

  lemma FinalizeKeeps(member: MemberId, db: Db, proof: VerifiedDelivery, roster: Roster, signerKey: nat, signature: nat, now: nat)
    requires Inv(member, db)
    ensures var db' := After(db, FinalizeReceived(db, member, proof, roster, signerKey, signature, now)); Inv(member, db') && Persists(db, db')
  {
    hide Inv, AllChunks, ChunkError, Authenticated.ValidateRoster, VerifiedDelivery.ValidateCommit, Completed, Manifest.Fits;
    var o, id := FinalizeReceived(db, member, proof, roster, signerKey, signature, now), proof.Subject();
    if o.Done? && ReceiptFrom(db, id).None? {
      RowOf(member, db, id);
      FinalizeComplete(member, db, id);
      assert id in db.announcements;
      var db1 := db.(objects := Completed(db.objects, id));
      var receipt := proof.ReceiptForCommit(signerKey, signature, now).value;
      DeliverKeeps(member, db1, id, receipt, now);
      var db' := db1.(localDeliveries := db.localDeliveries[id := now], deliveries := db.deliveries[id := receipt]);
      assert Persists(db, db');
      assert After(db, o) == db';
    }
  }

  lemma FinalizeComplete(member: MemberId, db: Db, id: ObjectId)
    requires Inv(member, db) && id in db.objects && ChunkError(db, id, db.objects[id].manifest, 0).None?
    ensures Inv(member, db.(objects := Completed(db.objects, id)))
    ensures id in Completed(db.objects, id) && Completed(db.objects, id)[id].complete && CompleteKept(db.objects, Completed(db.objects, id))
  {
    hide Inv, ChunkError, Manifest.Fits;
    RowOf(member, db, id);
    NoChunkError(db, id, db.objects[id].manifest, 0);
    assert AllChunks(id, db.chunks);
    hide AllChunks;
    CompletedKeeps(member, db, id);
  }

  /** Recorded receipts count distinct targets, so they reach the number of targets exactly when every target confirmed. */
  lemma ConfirmedCount(id: ObjectId, receipts: Receipts)
    requires id.manifest.Valid()
    requires forall k :: k in receipts && k.0 == id ==> k.1 in id.manifest.targets
    ensures |Confirmed(receipts, id)| <= |id.manifest.targets|
    ensures |Confirmed(receipts, id)| == |id.manifest.targets| <==> AllConfirmed(id, receipts)
  {
    var targets := id.manifest.targets;
    var all := set t | t in targets;
    DistinctCount(targets);
    forall t | t in Confirmed(receipts, id) ensures t in all { assert (id, t) in receipts; }
    SubsetCardinality(Confirmed(receipts, id), all);
    if Confirmed(receipts, id) == all {
      forall t | t in targets ensures (id, t) in receipts { assert t in all; }
    }
    if AllConfirmed(id, receipts) {
      forall t | t in all ensures t in Confirmed(receipts, id) { assert (id, t) in receipts; }
      assert Confirmed(receipts, id) == all;
    }
  }

  /** A new receipt keeps receipts and outbox in step. */
  lemma ReceiptKeeps(db: Db, id: ObjectId, actor: MemberId, receipt: Receipt)
    requires ReceiptsOk(db.announcements, db.operations, db.targetReceipts, db.originAcks)
    requires OutboxOk(db.operations, db.targetReceipts, db.outbox)
    requires id in db.announcements && Committed(db.operations, id) && actor in id.manifest.targets
    requires receipt.objectId == id && receipt.actor == actor
    ensures
      var receipts := InsertOrIgnore(db.targetReceipts, (id, actor), receipt);
      && ReceiptsOk(db.announcements, db.operations, receipts, db.originAcks)
      && OutboxOk(db.operations, receipts, if AllConfirmed(id, receipts) then db.outbox - {id} else db.outbox)
  {
    hide Committed;
    var receipts := InsertOrIgnore(db.targetReceipts, (id, actor), receipt);
    assert ReceiptsOk(db.announcements, db.operations, receipts, db.originAcks);
    hide ReceiptsOk;
    forall other | other != id ensures AllConfirmed(other, receipts) <==> AllConfirmed(other, db.targetReceipts) {
      if AllConfirmed(other, receipts) {
        forall t | t in other.manifest.targets ensures (other, t) in db.targetReceipts { assert (other, t) in receipts; }
      }
    }
    assert AllConfirmed(id, db.targetReceipts) ==> AllConfirmed(id, receipts);
  }

  lemma RecordTargetKeeps(member: MemberId, db: Db, proof: VerifiedReceipt, roster: Roster, now: nat)
    requires Inv(member, db)
    ensures var db' := After(db, RecordTargetReceipt(db, member, proof, roster, now)); Inv(member, db') && Persists(db, db')
  {
    hide ObjectsOk, ChunksOk, CompleteOk, ModesOk, RelayOk, DeliveriesOk, OperationsOk, ReceiptsOk, OutboxOk, LinksOk,
      Committed, AllConfirmed, InsertOrIgnore, Confirmed, VerifiedReceipt.ValidateCommit, Manifest.Valid;
    var o, id, actor := RecordTargetReceipt(db, member, proof, roster, now), proof.receipt.objectId, proof.receipt.actor;
    if o.Done? {
      RowOf(member, db, id);
      ReceiptKeeps(db, id, actor, proof.receipt);
      var receipts := InsertOrIgnore(db.targetReceipts, (id, actor), proof.receipt);
      ReceiptTargets(db.announcements, db.operations, receipts, db.originAcks, id);
      ConfirmedCount(id, receipts);
      var db' := db.(targetReceipts := receipts, outbox := if AllConfirmed(id, receipts) then db.outbox - {id} else db.outbox);
      assert Inv(member, db');
      assert Persists(db, db');
      assert After(db, o) == db';
    }
  }

  lemma ReceiptTargets(announcements: map<ObjectId, Announcement>, operations: Operations, receipts: Receipts,
    acks: map<(ObjectId, MemberId), Ack>, id: ObjectId)
    requires ReceiptsOk(announcements, operations, receipts, acks)
    ensures forall k :: k in receipts && k.0 == id ==> k.1 in id.manifest.targets
  {
    hide Committed;
  }

  lemma AckTables(db: Db, key: (ObjectId, MemberId), ack: Ack)
    requires ReceiptsOk(db.announcements, db.operations, db.targetReceipts, db.originAcks)
    requires key in db.targetReceipts && ack.receiptId == ReceiptId(db.targetReceipts[key]) && ack.objectId == key.0 && ack.actor == key.1
    ensures ReceiptsOk(db.announcements, db.operations, db.targetReceipts, db.originAcks[key := ack])
  {
    hide Committed;
  }

  lemma OriginAckKeeps(member: MemberId, db: Db, objectId: ObjectId, actor: MemberId, envelope: Result<Envelope, DurableError>,
    roster: Roster, signerKey: nat, signature: nat, now: nat, oracle: Oracle)
    requires Inv(member, db)
    ensures
      var db' := After(db, OriginReceiptAck(db, member, objectId, actor, envelope, roster, signerKey, signature, now, oracle));
      Inv(member, db') && Persists(db, db')
  {
    hide ObjectsOk, ChunksOk, CompleteOk, ModesOk, RelayOk, DeliveriesOk, OperationsOk, OutboxOk, LinksOk, Committed,
      VerifyTargetReceipt, VerifyAck, Roster.ValidateAt, ReceiptsOk;
    var o, key := OriginReceiptAck(db, member, objectId, actor, envelope, roster, signerKey, signature, now, oracle), (objectId, actor);
    if o.Done? && After(db, o) != db {
      var db' := db.(originAcks := db.originAcks[key := o.value]);
      AckTables(db, key, o.value);
      assert Inv(member, db');
      assert Persists(db, db');
      assert After(db, o) == db';
    }
  }

  lemma RecordAckKeeps(member: MemberId, db: Db, ack: Ack, roster: Roster, now: nat)
    requires Inv(member, db)
    ensures var db' := After(db, RecordReceiptAck(db, member, ack, roster, now)); Inv(member, db') && Persists(db, db')
  {
    hide ObjectsOk, ChunksOk, CompleteOk, ModesOk, RelayOk, OperationsOk, ReceiptsOk, OutboxOk, LinksOk, Roster.ValidateAt;
    var o := RecordReceiptAck(db, member, ack, roster, now);
    if o.Done? {
      var acknowledged' := InsertOrIgnore(db.acknowledged, ack.objectId, Acknowledged(ack.receiptId, ack.at));
      assert DeliveriesOk(member, db.objects, db.announcements, db.localDeliveries, db.deliveries, acknowledged');
      hide DeliveriesOk;
      var db' := db.(acknowledged := acknowledged');
      assert Inv(member, db');
      assert Persists(db, db');
      assert After(db, o) == db';
    }
  }

  // ----- deletion -----

  lemma DeleteObjectRows(member: MemberId, db: Db, ids: set<ObjectId>)
    requires Inv(member, db)
    ensures
      var d := DeleteObjects(db, ids);
      && ObjectsOk(d.objects) && ChunksOk(d.objects, d.chunks) && CompleteOk(d.objects, d.chunks) && ModesOk(d.objects, d.announcements)
  {
    hide RelayOk, DeliveriesOk, OperationsOk, ReceiptsOk, OutboxOk, LinksOk, SameSlot, Manifest.Valid, Manifest.Fits;
    var d := DeleteObjects(db, ids);
    forall id | id in d.objects && d.objects[id].complete ensures AllChunks(id, d.chunks) {
      assert AllChunks(id, db.chunks);
    }
  }

  lemma DeleteCustody(member: MemberId, db: Db, ids: set<ObjectId>)
    requires RelayOk(member, db.objects, db.announcements, db.relayOutbox, db.relayMetadata)
    ensures var d := DeleteObjects(db, ids); RelayOk(member, d.objects, d.announcements, d.relayOutbox, d.relayMetadata)
  {
    hide FrameBound;
  }

  lemma DeleteDeliveries(member: MemberId, db: Db, ids: set<ObjectId>)
    requires DeliveriesOk(member, db.objects, db.announcements, db.localDeliveries, db.deliveries, db.acknowledged)
    ensures
      var d := DeleteObjects(db, ids);
      DeliveriesOk(member, d.objects, d.announcements, d.localDeliveries, d.deliveries, d.acknowledged)
  {
  }

  /** Reservations of deleted objects go; those of others stay. */
  lemma DeleteCommitted(db: Db, ids: set<ObjectId>, id: ObjectId)
    ensures Committed(DeleteObjects(db, ids).operations, id) <==> Committed(db.operations, id) && id !in ids
  {
    if Committed(db.operations, id) && id !in ids {
      var op :| op in db.operations && db.operations[op].objectId == Some(id);
      assert op in DeleteObjects(db, ids).operations;
    }
  }

  lemma DeleteReservations(member: MemberId, db: Db, ids: set<ObjectId>)
    requires Inv(member, db)
    ensures var d := DeleteObjects(db, ids); OperationsOk(member, d.nextSequence, d.operations, d.objects)
  {
    hide ObjectsOk, ChunksOk, CompleteOk, ModesOk, RelayOk, DeliveriesOk, ReceiptsOk, OutboxOk, LinksOk;
  }

  lemma DeleteReceipts(member: MemberId, db: Db, ids: set<ObjectId>)
    requires Inv(member, db)
    ensures var d := DeleteObjects(db, ids); ReceiptsOk(d.announcements, d.operations, d.targetReceipts, d.originAcks)
  {
    hide ObjectsOk, ChunksOk, CompleteOk, ModesOk, RelayOk, DeliveriesOk, OperationsOk, OutboxOk, LinksOk, Committed;
    forall id ensures Committed(DeleteObjects(db, ids).operations, id) <==> Committed(db.operations, id) && id !in ids {
      DeleteCommitted(db, ids, id);
    }
  }

  lemma DeleteOutbox(member: MemberId, db: Db, ids: set<ObjectId>)
    requires Inv(member, db)
    ensures var d := DeleteObjects(db, ids); OutboxOk(d.operations, d.targetReceipts, d.outbox)
  {
    hide ObjectsOk, ChunksOk, CompleteOk, ModesOk, RelayOk, DeliveriesOk, OperationsOk, ReceiptsOk, LinksOk, Committed;
    var d := DeleteObjects(db, ids);
    forall id ensures id in d.outbox <==> Committed(d.operations, id) && !AllConfirmed(id, d.targetReceipts) {
      DeleteCommitted(db, ids, id);
      if id !in ids && AllConfirmed(id, db.targetReceipts) {
        forall t | t in id.manifest.targets ensures (id, t) in d.targetReceipts { assert (id, t) in db.targetReceipts; }
      }
      if AllConfirmed(id, d.targetReceipts) {
        forall t | t in id.manifest.targets ensures (id, t) in db.targetReceipts { assert (id, t) in d.targetReceipts; }
      }
    }
  }

  lemma FewerLinks(row: Logical, links: map<ObjectId, Link>, ids: set<ObjectId>, l: LogicalId)
    requires WithinTotals(row, LinkRows(links, l))
    ensures WithinTotals(row, LinkRows(links - ids, l))
  {
    assert LinkRows(links - ids, l) == LinkRows(links, l) - ids;
    TotalRestrict(LinkRows(links, l), ids);
    SubsetCardinality((LinkRows(links, l) - ids).Keys, LinkRows(links, l).Keys);
  }

  lemma DeleteLinks(member: MemberId, db: Db, ids: set<ObjectId>)
    requires Inv(member, db)
    ensures var d := DeleteObjects(db, ids); LinksOk(d.operations, d.logical, d.links)
  {
    hide ObjectsOk, ChunksOk, CompleteOk, ModesOk, RelayOk, DeliveriesOk, OperationsOk, ReceiptsOk, OutboxOk, Committed, WithinTotals, LinkRows;
    var d := DeleteObjects(db, ids);
    forall id | id in d.links ensures Committed(d.operations, id) {
      DeleteCommitted(db, ids, id);
    }
    forall l | l in db.logical ensures WithinTotals(db.logical[l], LinkRows(d.links, l)) {
      FewerLinks(db.logical[l], db.links, ids, l);
    }
  }

  lemma DeleteKeeps(member: MemberId, db: Db, ids: set<ObjectId>)
    requires Inv(member, db)
    ensures Inv(member, DeleteObjects(db, ids)) && Persists(db, DeleteObjects(db, ids))
  {
    DeleteObjectRows(member, db, ids);
    DeleteCustody(member, db, ids);
    DeleteDeliveries(member, db, ids);
    DeleteReservations(member, db, ids);
    DeleteReceipts(member, db, ids);
    DeleteOutbox(member, db, ids);
    DeleteLinks(member, db, ids);
    DeletePersists(db, ids);
    hide ObjectsOk, ChunksOk, CompleteOk, ModesOk, RelayOk, DeliveriesOk, OperationsOk, ReceiptsOk, OutboxOk, LinksOk, Persists, DeleteObjects;
    assert Inv(member, DeleteObjects(db, ids));
  }

  lemma DeletePersists(db: Db, ids: set<ObjectId>)
    ensures Persists(db, DeleteObjects(db, ids))
  {
  }

  /** Dropping reservations that name no object. */
  lemma DropUnusedKeeps(member: MemberId, db: Db)
    requires Inv(member, db)
    ensures Inv(member, DropUnused(db)) && Persists(db, DropUnused(db))
  {
    hide ObjectsOk, ChunksOk, CompleteOk, ModesOk, RelayOk, DeliveriesOk, ReceiptsOk, OutboxOk, LinksOk, Claims;
    var operations' := DropUnused(db).operations;
    assert OperationsOk(member, db.nextSequence, operations', db.objects);
    forall id ensures Committed(operations', id) <==> Committed(db.operations, id) {
      if Committed(db.operations, id) {
        var op :| op in db.operations && db.operations[op].objectId == Some(id);
        assert op in operations' && operations'[op].objectId == Some(id);
      }
    }
    RecommitKeeps(db, operations');
    hide OperationsOk;
    assert Inv(member, DropUnused(db));
  }

  lemma DropLogicalKeeps(member: MemberId, db: Db, gone: set<LogicalId>)
    requires Inv(member, db) && forall l :: l in gone ==> !HasLinks(db, l)
    ensures Inv(member, db.(logical := db.logical - gone))
  {
    hide ObjectsOk, ChunksOk, CompleteOk, ModesOk, RelayOk, DeliveriesOk, ReceiptsOk, OutboxOk, OperationsOk, Committed, WithinTotals, LinkRows;
    var logical' := db.logical - gone;
    forall id | id in db.links ensures db.links[id].logical in logical' {
      assert HasLinks(db, db.links[id].logical);
    }
    assert LinksOk(db.operations, logical', db.links);
    hide LinksOk;
    assert Inv(member, db.(logical := logical'));
  }

  lemma PruneKeeps(member: MemberId, db: Db, now: nat)
    requires Inv(member, db)
    ensures var db' := After(db, Prune(db, now)); Inv(member, db') && Persists(db, db')
  {
    hide Inv, DeleteObjects, StaleLogical, HasLinks, ExpiredObjects, Unexpired;
    if Prune(db, now).Done? {
      var db1 := DeleteObjects(db, ExpiredObjects(db, now));
      DeleteKeeps(member, db, ExpiredObjects(db, now));
      var stale := StaleLogical(db1, now);
      DropLogicalKeeps(member, db1, stale);
      var db2 := db1.(logical := db1.logical - stale, relayReceipts := Unexpired(db1.relayReceipts, now),
                      relayAcks := Unexpired(db1.relayAcks, now));
      RelayRowsKeep(member, db1.(logical := db1.logical - stale), db2);
      DropUnusedKeeps(member, db2);
      assert After(db, Prune(db, now)) == DropUnused(db2);
    }
  }

  /** The invariant does not mention the custody of receipts and acknowledgements. */
  lemma RelayRowsKeep(member: MemberId, db: Db, db': Db)
    requires Inv(member, db) && db' == db.(relayReceipts := db'.relayReceipts, relayAcks := db'.relayAcks)
    ensures Inv(member, db') && Persists(db, db')
  {
    hide ObjectsOk, ChunksOk, CompleteOk, ModesOk, RelayOk, DeliveriesOk, ReceiptsOk, OutboxOk, OperationsOk, LinksOk;
  }

  lemma DeletedLinks(db: Db, logical: LogicalId)
    ensures !HasLinks(DeleteObjects(db, LinkedTo(db, logical).Keys), logical)
  {
  }

  lemma RollbackKeeps(member: MemberId, db: Db, logical: LogicalId)
    requires Inv(member, db)
    ensures Inv(member, Rollback(db, logical)) && Persists(db, Rollback(db, logical))
  {
    hide Inv, DeleteObjects;
    var ids := LinkedTo(db, logical).Keys;
    var db1 := DeleteObjects(db, ids);
    DeleteKeeps(member, db, ids);
    DeletedLinks(db, logical);
    DropLogicalKeeps(member, db1, {logical});
    var db2 := db1.(logical := db1.logical - {logical});
    DropUnusedKeeps(member, db2);
  }
}
