/**
 * The encrypted store. Every method runs one transaction: it works on a copy of the tables and puts the copy back
 * when nothing failed. Each is proved to be the transaction function of the same name.
 */
module Stores {
  import opened Types
  import opened Sums
  import opened Protocol
  import opened Tables

  /** The transaction either committed with a result or failed and left no trace. */
  ghost predicate Commits<T>(before: Db, after: Db, r: Result<T, DurableError>, o: Outcome<T>) {
    match o
    case Done(db, value) => after == db && r == Ok(value)
    case Failed(error) => after == before && r == Err(error)
  }

  method SumRows<K>(rows: map<K, nat>) returns (total: nat)
    ensures total == Total(rows)
  {
    var left := rows;
    total := 0;
    while left.Keys != {}
      invariant total + Total(left) == Total(rows)
      decreases left.Keys
    {
      var k :| k in left;
      TotalSplit(left, k);
      total, left := total + left[k], left - {k};
    }
    assert left == map[];
  }

  lemma OfOthersTwice<B, V>(rows: map<(ObjectId, B), V>, a: set<ObjectId>, b: set<ObjectId>)
    ensures OfOthers(OfOthers(rows, a), b) == OfOthers(rows, a + b) && OfOthers(rows, {}) == rows
  {
  }

  lemma OthersTwice(operations: map<OperationId, Operation>, a: set<ObjectId>, b: set<ObjectId>)
    ensures OthersReservations(OthersReservations(operations, a), b) == OthersReservations(operations, a + b)
    ensures OthersReservations(operations, {}) == operations
  {
  }

  lemma MinusTwice<V>(rows: map<ObjectId, V>, a: set<ObjectId>, b: set<ObjectId>)
    ensures rows - a - b == rows - (a + b) && rows - {} == rows
  {
  }

  /** Deleting objects one after the other deletes all of them. */
  lemma DeleteTwice(db: Db, a: set<ObjectId>, b: set<ObjectId>)
    ensures DeleteObjects(DeleteObjects(db, a), b) == DeleteObjects(db, a + b)
    ensures DeleteObjects(db, {}) == db
  {
    hide OfOthers, OthersReservations;
    OthersTwice(db.operations, a, b);
    OfOthersTwice(db.chunks, a, b);
    OfOthersTwice(db.targetReceipts, a, b);
    OfOthersTwice(db.originAcks, a, b);
    MinusTwice(db.objects, a, b);
    MinusTwice(db.relayOutbox, a, b);
    MinusTwice(db.relayMetadata, a, b);
    MinusTwice(db.localDeliveries, a, b);
    MinusTwice(db.announcements, a, b);
    MinusTwice(db.deliveries, a, b);
    MinusTwice(db.acknowledged, a, b);
    MinusTwice(db.links, a, b);
    assert db.outbox - a - b == db.outbox - (a + b) && db.outbox - {} == db.outbox;
  }

  /** One object's rows, table by table. */
  method DeleteObject(tx: Db, id: ObjectId) returns (tx': Db)
    ensures tx' == DeleteObjects(tx, {id})
  {
    hide OfOthers, OthersReservations;
    tx' := tx.(acknowledged := tx.acknowledged - {id});
    tx' := tx'.(originAcks := OfOthers(tx.originAcks, {id}));
    tx' := tx'.(targetReceipts := OfOthers(tx.targetReceipts, {id}));
    tx' := tx'.(deliveries := tx.deliveries - {id}, localDeliveries := tx.localDeliveries - {id});
    tx' := tx'.(relayMetadata := tx.relayMetadata - {id}, relayOutbox := tx.relayOutbox - {id});
    tx' := tx'.(outbox := tx.outbox - {id}, links := tx.links - {id});
    tx' := tx'.(announcements := tx.announcements - {id});
    tx' := tx'.(chunks := OfOthers(tx.chunks, {id}));
    tx' := tx'.(operations := OthersReservations(tx.operations, {id}));
    tx' := tx'.(objects := tx.objects - {id});
  }

  method DeleteAll(tx: Db, ids: set<ObjectId>) returns (tx': Db)
    ensures tx' == DeleteObjects(tx, ids)
  {
    tx' := tx;
    var left := ids;
    DeleteTwice(tx, {}, {});
    assert ids - left == {};
    while left != {}
      invariant left <= ids
      invariant tx' == DeleteObjects(tx, ids - left)
    {
      hide DeleteObjects;
      var id :| id in left;
      tx' := DeleteObject(tx', id);
      DeleteTwice(tx, ids - left, {id});
      assert ids - left + {id} == ids - (left - {id});
      left := left - {id};
    }
    assert ids - left == ids;
  }

  /** An empty row set, or one object more, by the limits and by the unique (origin, sequence). */
  method InsertManifestRow(tx: Db, limits: Limits, m: Manifest) returns (r: Result<map<ObjectId, ObjectRow>, DurableError>)
    ensures r == InsertManifest(tx, limits, m)
  {
    if m.Id() in tx.objects { return Ok(tx.objects); }
    if exists id :: id in tx.objects && SameSlot(tx.objects[id].manifest, m) { return Err(Conflict); }
    var reserved := SumRows(ReservedBytes(tx));
    if |tx.objects| >= limits.objects || reserved + m.contentLen > limits.bytes { return Err(ResourcePressure); }
    return Ok(tx.objects[m.Id() := ObjectRow(m, false)]);
  }

  method LinkLogicalObject(tx: Db, logical: LogicalId, id: ObjectId, targetCount: nat) returns (r: Result<map<ObjectId, Link>, DurableError>)
    ensures r == LinkLogical(tx, logical, id, targetCount)
  {
    if targetCount == 0 || targetCount > 10 { return Err(InvalidInput); }
    if logical !in tx.logical { return Err(NotFound); }
    if id in tx.links {
      if tx.links[id] == Link(logical, targetCount) { return Ok(tx.links); }
      return Err(Conflict);
    }
    var targetTotal, audienceTotal := tx.logical[logical].targetCount, tx.logical[logical].audienceCount;
    var boundTargets := SumRows(LinkedTo(tx, logical));
    var boundAudiences := |LinkedTo(tx, logical)|;
    if boundAudiences >= audienceTotal || boundTargets + targetCount > targetTotal { return Err(Conflict); }
    return Ok(tx.links[id := Link(logical, targetCount)]);
  }

  lemma OneMoreChunk(id: ObjectId, chunks: seq<Bytes>, i: nat)
    requires i < |chunks|
    ensures ChunkRows(id, chunks[..i + 1]) == ChunkRows(id, chunks[..i])[(id, i) := chunks[i]]
  {
    assert forall j :: 0 <= j < i ==> chunks[..i + 1][j] == chunks[..i][j];
  }

  lemma NewChunkRow(tx: Db, id: ObjectId, chunks: seq<Bytes>, i: nat)
    requires i < |chunks|
    ensures
      var rows := tx.chunks + ChunkRows(id, chunks[..i]);
      && tx.chunks + ChunkRows(id, chunks[..i + 1]) == rows[(id, i) := chunks[i]]
      && ((id, i) in rows <==> (id, i) in tx.chunks)
      && ((id, i) in tx.chunks ==> rows[(id, i)] == tx.chunks[(id, i)])
      && ((id, i) in rows && rows[(id, i)] == chunks[i] ==> rows[(id, i) := chunks[i]] == rows)
  {
    OneMoreChunk(id, chunks, i);
    assert (id, i) !in ChunkRows(id, chunks[..i]);
    hide ChunkRows;
    var rows := tx.chunks + ChunkRows(id, chunks[..i]);
    assert rows[(id, i) := chunks[i]] == tx.chunks + ChunkRows(id, chunks[..i])[(id, i) := chunks[i]];
  }

  /** Every chunk of a new object, in order; a stored chunk that differs ends the transaction. */
  method InsertChunks(tx: Db, id: ObjectId, chunks: seq<Bytes>) returns (r: Result<map<(ObjectId, nat), Bytes>, DurableError>)
    ensures r == if ChunksClash(tx.chunks, id, chunks) then Err(Corrupt) else Ok(tx.chunks + ChunkRows(id, chunks))
  {
    var rows := tx.chunks;
    assert ChunkRows(id, chunks[..0]) == map[];
    for i := 0 to |chunks|
      invariant rows == tx.chunks + ChunkRows(id, chunks[..i])
      invariant forall j :: 0 <= j < i ==> !((id, j) in tx.chunks && tx.chunks[(id, j)] != chunks[j])
    {
      NewChunkRow(tx, id, chunks, i);
      hide ChunkRows;
      if (id, i) in rows {
        if rows[(id, i)] != chunks[i] { return Err(Corrupt); }
      } else {
        rows := rows[(id, i) := chunks[i]];
      }
    }
    assert chunks[..|chunks|] == chunks;
    return Ok(rows);
  }

  class Store {
    const member: MemberId
    const limits: Limits
    var db: Db

    constructor (member: MemberId, limits: Limits)
      ensures this.member == member && this.limits == limits && db == EMPTY
    {
      this.member, this.limits, db := member, limits, EMPTY;
    }

    method Reserve(op: OperationId, commandHash: nat) returns (r: Result<Operation, DurableError>)
      modifies this
      ensures Commits(old(db), db, r, Tables.Reserve(old(db), limits, op, commandHash))
    {
      var tx := db;
      if op in tx.operations {
        var row := tx.operations[op];
        if row.commandHash != commandHash { return Err(Conflict); }
        return Ok(row);
      }
      if |tx.operations| >= limits.operations { return Err(ResourcePressure); }
      var sequence := tx.nextSequence;
      if sequence >= MAX_LOGICAL_TIME { return Err(ResourcePressure); }
      tx := tx.(nextSequence := tx.nextSequence + 1);
      tx := tx.(operations := tx.operations[op := Operation(commandHash, sequence, None)]);
      db := tx;
      return Ok(Operation(commandHash, sequence, None));
    }

    method BeginLogicalMessage(id: LogicalId, targetCount: nat, audienceCount: nat, expiresAt: nat, now: nat)
      returns (r: Result<(), DurableError>)
      modifies this
      ensures Commits(old(db), db, r, BeginLogical(old(db), id, targetCount, audienceCount, expiresAt, now))
    {
      if now > MAX_LOGICAL_TIME { return Err(InvalidInput); }
      if targetCount == 0 || targetCount > 49 || audienceCount == 0 || audienceCount > 5 || expiresAt <= now {
        return Err(InvalidInput);
      }
      var tx := db;
      if id in tx.logical {
        var row := tx.logical[id];
        if (row.expiresAt, row.targetCount, row.audienceCount) != (expiresAt, targetCount, audienceCount) { return Err(Conflict); }
        return Ok(());
      }
      tx := tx.(logical := tx.logical[id := Logical(now, expiresAt, targetCount, audienceCount)]);
      db := tx;
      return Ok(());
    }

    /** Object, chunks, announcement, link, outbox row and operation result are committed together. */
    method CommitOutgoing(op: OperationId, commandHash: nat, prepared: PreparedObject, now: nat,
      announcement: Option<Announcement>, logical: Option<LogicalId>)
      returns (r: Result<ObjectId, DurableError>)
      modifies this
      ensures Commits(old(db), db, r,
                Tables.CommitOutgoing(old(db), member, limits, op, commandHash, prepared, now, announcement, logical))
    {
      hide CommitNew, ModeAllows;
      var m, id := prepared.manifest, prepared.manifest.Id();
      if now > MAX_LOGICAL_TIME { return Err(InvalidInput); }
      var tx := db;
      if op !in tx.operations { return Err(NotFound); }
      var row := tx.operations[op];
      if row.commandHash != commandHash || row.sequence != m.sequence || m.origin != member { return Err(Conflict); }
      if row.objectId.Some? {
        if !ModeAllows(tx, id, announcement) { return Err(AuthenticationFailed); }
        if logical.Some? && !(id in tx.links && tx.links[id] == Link(logical.value, |m.targets|)) { return Err(Conflict); }
        if row.objectId.value == id { return Ok(id); }
        return Err(Conflict);
      }
      if now >= m.expiresAt { return Err(Expired); }
      if !ModeAllows(tx, id, announcement) { return Err(AuthenticationFailed); }
      var o := StoreOutgoing(tx, op, prepared, now, announcement, logical);
      if o.Failed? { return Err(o.error); }
      db := o.db;
      return Ok(o.value);
    }

    /** The inserts of the first commit of a reservation, in order. */
    method StoreOutgoing(before: Db, op: OperationId, prepared: PreparedObject, now: nat,
      announcement: Option<Announcement>, logical: Option<LogicalId>)
      returns (o: Outcome<ObjectId>)
      requires op in before.operations
      ensures o == CommitNew(before, member, limits, op, prepared, now, announcement, logical)
    {
      hide ChunkRows, ChunksClash, InsertManifest, Claimed, InsertOrIgnore, LinkLogical;
      var m, id, tx := prepared.manifest, prepared.manifest.Id(), before;
      var objects := InsertManifestRow(tx, limits, m);
      if objects.Err? { return Failed(objects.error); }
      tx := tx.(objects := objects.value);
      tx := tx.(announcements := RecordAnnouncement(tx, id, announcement));
      var chunks := InsertChunks(tx, id, prepared.chunks);
      if chunks.Err? { return Failed(chunks.error); }
      tx := tx.(chunks := chunks.value);
      tx := tx.(objects := tx.objects[id := ObjectRow(m, true)]);
      if id in tx.outbox { return Failed(StorageUnavailable); }
      tx := tx.(outbox := tx.outbox + {id});
      if logical.Some? {
        var links := LinkLogicalObject(tx, logical.value, id, |m.targets|);
        SameLinks(before, tx, logical.value, id, |m.targets|);
        if links.Err? { return Failed(links.error); }
        tx := tx.(links := links.value);
      }
      tx := tx.(localDeliveries := DeliverLegacy(tx, member, m, now, announcement));
      if Claimed(tx.operations, op, id) { return Failed(StorageUnavailable); }
      tx := tx.(operations := tx.operations[op := tx.operations[op].(objectId := Some(id))]);
      return Done(tx, id);
    }

    method AnnounceAuthenticated(a: Authenticated, roster: Roster, now: nat) returns (r: Result<ObjectId, DurableError>)
      modifies this
      ensures Commits(old(db), db, r, Tables.AnnounceAuthenticated(old(db), limits, a, roster, now))
    {
      hide InsertManifest, Authenticated.ValidateRoster;
      var checked := a.ValidateRoster(roster, now);
      if checked.Err? { return Err(checked.error); }
      var m := a.Manifest();
      if Live(m, now).Err? { return Err(Live(m, now).error); }
      var tx := db;
      if !ModeAllows(tx, m.Id(), Some(a.announcement)) { return Err(AuthenticationFailed); }
      var objects := InsertManifestRow(tx, limits, m);
      if objects.Err? { return Err(objects.error); }
      tx := tx.(objects := objects.value);
      tx := tx.(announcements := InsertOrIgnore(tx.announcements, m.Id(), a.announcement));
      db := tx;
      return Ok(m.Id());
    }

    /** One verified chunk; the one that completes its object also takes a foreign object into relay custody. */
    method PutChunk(id: ObjectId, index: nat, bytes: Bytes, now: nat, relay: Option<RelayMetadata>)
      returns (r: Result<Option<nat>, DurableError>)
      modifies this
      ensures Commits(old(db), db, r, Tables.PutChunk(old(db), member, id, index, bytes, now, relay))
    {
      hide Manifest.VerifyChunk, InsertOrIgnore, FrameBound, Live, IndicesIn, ModeAllows;
      var tx := db;
      if relay.Some? {
        if id !in tx.announcements { return Err(AuthenticationFailed); }
      } else if !ModeAllows(tx, id, None) {
        return Err(AuthenticationFailed);
      }
      if id !in tx.objects { return Err(NotFound); }
      var m := tx.objects[id].manifest;
      if Live(m, now).Err? { return Err(Live(m, now).error); }
      if m.VerifyChunk(index, bytes).Err? { return Err(m.VerifyChunk(index, bytes).error); }
      var chunks := InsertChunk(tx, id, index, bytes);
      if chunks.Err? { return Err(chunks.error); }
      tx := tx.(chunks := chunks.value);
      if |IndicesIn(tx.chunks, id)| != |m.hashes| {
        db := tx;
        return Ok(None);
      }
      tx := tx.(objects := tx.objects[id := tx.objects[id].(complete := true)]);
      if m.origin != member {
        tx := tx.(relayOutbox := InsertOrIgnore(tx.relayOutbox, id, now));
        if relay.Some? {
          var frame := relay.value.frame;
          if !FrameBound(frame, m) { return Err(InvalidInput); }
          if id in tx.relayMetadata {
            if tx.relayMetadata[id] != relay.value { return Err(Conflict); }
          } else {
            if frame.hopLimit == 0 { return Err(StorageUnavailable); }
            tx := tx.(relayMetadata := tx.relayMetadata[id := relay.value]);
          }
        }
      }
      r := Ok(None);
      if relay.None? && member in m.targets {
        tx := tx.(localDeliveries := InsertOrIgnore(tx.localDeliveries, id, now));
        assert id in tx.localDeliveries by { KeyIn(db.localDeliveries, id, now); }
        r := Ok(Some(tx.localDeliveries[id]));
      }
      db := tx;
    }

    /** The delivery marker, the signed receipt and the complete flag form one transaction. */
    method FinalizeReceived(proof: VerifiedDelivery, roster: Roster, signerKey: nat, signature: nat, now: nat)
      returns (r: Result<ReceiptCommit, DurableError>)
      modifies this
      ensures Commits(old(db), db, r, Tables.FinalizeReceived(old(db), member, proof, roster, signerKey, signature, now))
    {
      hide Manifest.VerifyChunk, Authenticated.ValidateRoster, VerifiedDelivery.ValidateCommit, VerifiedDelivery.ReceiptForCommit, Manifest.Fits;
      var id := proof.Subject();
      if proof.member != member { return Err(AuthenticationFailed); }
      var checked := proof.announcement.ValidateRoster(roster, now);
      if checked.Err? { return Err(checked.error); }
      var tx := db;
      if id !in tx.announcements || tx.announcements[id] != proof.announcement.announcement { return Err(AuthenticationFailed); }
      if id in tx.localDeliveries && id in tx.deliveries {
        return Ok(ReceiptCommit(tx.localDeliveries[id], tx.deliveries[id]));
      }
      if proof.ValidateCommit(roster, now).Err? { return Err(proof.ValidateCommit(roster, now).error); }
      if id !in tx.objects { return Err(NotFound); }
      var m := tx.objects[id].manifest;
      var i := 0;
      while i < |m.hashes|
        invariant i <= |m.hashes|
        invariant ChunkError(tx, id, m, 0) == ChunkError(tx, id, m, i)
      {
        if (id, i) !in tx.chunks { return Err(NotFound); }
        if !m.Fits(i, tx.chunks[(id, i)]) { return Err(Corrupt); }
        i := i + 1;
      }
      var receipt := proof.ReceiptForCommit(signerKey, signature, now);
      if receipt.Err? { return Err(receipt.error); }
      if id in tx.localDeliveries || id in tx.deliveries { return Err(StorageUnavailable); }
      tx := tx.(localDeliveries := tx.localDeliveries[id := now]);
      tx := tx.(deliveries := tx.deliveries[id := receipt.value]);
      tx := tx.(objects := tx.objects[id := tx.objects[id].(complete := true)]);
      db := tx;
      return Ok(ReceiptCommit(now, receipt.value));
    }

    method RecordTargetReceipt(proof: VerifiedReceipt, roster: Roster, now: nat) returns (r: Result<Progress, DurableError>)
      modifies this
      ensures Commits(old(db), db, r, Tables.RecordTargetReceipt(old(db), member, proof, roster, now))
    {
      hide VerifiedReceipt.ValidateCommit, Committed, InsertOrIgnore;
      if proof.ValidateCommit(roster, now).Err? { return Err(proof.ValidateCommit(roster, now).error); }
      var id, tx := proof.receipt.objectId, db;
      if id !in tx.objects { return Err(NotFound); }
      var m := tx.objects[id].manifest;
      if m.origin != member || id !in tx.announcements || tx.announcements[id] != proof.announcement || proof.receipt.actor !in m.targets {
        return Err(AuthenticationFailed);
      }
      if !Committed(tx.operations, id) { return Err(NotFound); }
      tx := tx.(targetReceipts := InsertOrIgnore(tx.targetReceipts, (id, proof.receipt.actor), proof.receipt));
      var progress := ProgressFrom(tx.targetReceipts, m, now);
      if progress.Err? { return Err(progress.error); }
      if progress.value.state.DeliveredToAll? { tx := tx.(outbox := tx.outbox - {id}); }
      db := tx;
      return Ok(progress.value);
    }

    method OriginReceiptAck(objectId: ObjectId, actor: MemberId, envelope: Result<Envelope, DurableError>, roster: Roster,
      signerKey: nat, signature: nat, now: nat, oracle: Oracle)
      returns (r: Result<Ack, DurableError>)
      modifies this
      ensures Commits(old(db), db, r,
                Tables.OriginReceiptAck(old(db), member, objectId, actor, envelope, roster, signerKey, signature, now, oracle))
    {
      hide VerifyTargetReceipt, VerifyAck, IssueAck, Roster.ValidateAt;
      if roster.ValidateAt(now).Err? { return Err(roster.ValidateAt(now).error); }
      if member !in roster.members || signerKey != roster.members[member].key { return Err(AuthenticationFailed); }
      var key, tx := (objectId, actor), db;
      if key !in tx.targetReceipts { return Err(NotFound); }
      var receipt := tx.targetReceipts[key];
      if key in tx.originAcks && VerifyAck(tx.originAcks[key], roster, now, oracle).Ok? { return Ok(tx.originAcks[key]); }
      var verified := VerifyTargetReceipt(tx, objectId, receipt, envelope, roster, now, oracle);
      if verified.Err? { return Err(verified.error); }
      var ack := IssueAck(receipt, objectId, member, actor, roster.scope, signerKey, signature, now);
      if ack.Err? { return Err(ack.error); }
      db := tx.(originAcks := tx.originAcks[key := ack.value]);
      return Ok(ack.value);
    }

    method RecordReceiptAck(ack: Ack, roster: Roster, now: nat) returns (r: Result<(), DurableError>)
      modifies this
      ensures Commits(old(db), db, r, Tables.RecordReceiptAck(old(db), member, ack, roster, now))
    {
      hide Roster.ValidateAt, InsertOrIgnore;
      if roster.ValidateAt(now).Err? { return Err(roster.ValidateAt(now).error); }
      if ack.actor != member { return Err(AuthenticationFailed); }
      var tx := db;
      var receipt := ReceiptFrom(tx, ack.objectId);
      if receipt.None? || ack.objectId !in tx.objects { return Err(NotFound); }
      if tx.objects[ack.objectId].manifest.origin != ack.origin || ReceiptId(receipt.value.receipt) != ack.receiptId {
        return Err(AuthenticationFailed);
      }
      db := tx.(acknowledged := InsertOrIgnore(tx.acknowledged, ack.objectId, Acknowledged(ack.receiptId, ack.at)));
      return Ok(());
    }

    method PutRelayReceipt(receipt: Receipt, frame: RelayFrame, receivedFrom: MemberId, now: nat) returns (r: Result<(), DurableError>)
      modifies this
      ensures Commits(old(db), db, r, Tables.PutRelayReceipt(old(db), member, limits, receipt, frame, receivedFrom, now))
    {
      if now > MAX_LOGICAL_TIME || frame.previousHop != member || frame.hops > frame.hopLimit || frame.expiresAt <= now {
        return Err(InvalidInput);
      }
      var tx := db.(relayReceipts := Unexpired(db.relayReceipts, now));
      if ReceiptId(receipt) !in tx.relayReceipts {
        if |tx.relayReceipts| >= limits.operations { return Err(ResourcePressure); }
        if frame.hopLimit == 0 || frame.hopLimit > 16 { return Err(StorageUnavailable); }
        tx := tx.(relayReceipts := tx.relayReceipts[ReceiptId(receipt) := Custody(frame, receivedFrom, now)]);
      }
      db := tx;
      return Ok(());
    }

    method PutRelayAck(ack: Ack, frame: RelayFrame, receivedFrom: MemberId, now: nat) returns (r: Result<(), DurableError>)
      modifies this
      ensures Commits(old(db), db, r, Tables.PutRelayAck(old(db), member, limits, ack, frame, receivedFrom, now))
    {
      if now > MAX_LOGICAL_TIME || frame.previousHop != member || frame.hops > frame.hopLimit || frame.expiresAt <= now {
        return Err(InvalidInput);
      }
      var tx := db.(relayAcks := Unexpired(db.relayAcks, now));
      if ack !in tx.relayAcks {
        if |tx.relayAcks| >= limits.operations { return Err(ResourcePressure); }
        if frame.hopLimit == 0 || frame.hopLimit > 16 { return Err(StorageUnavailable); }
        tx := tx.(relayAcks := tx.relayAcks[ack := Custody(frame, receivedFrom, now)]);
      }
      db := tx;
      return Ok(());
    }

    method RemoveRelayReceipt(id: ReceiptId)
      modifies this
      ensures db == Tables.RemoveRelayReceipt(old(db), id)
    {
      db := db.(relayReceipts := db.relayReceipts - {id});
    }

    /** Deletes what can no longer be routed: scan for expired objects, then delete them and everything stale in one transaction. */
    method PruneExpired(now: nat) returns (r: Result<nat, DurableError>)
      modifies this
      ensures Commits(old(db), db, r, Prune(old(db), now))
    {
      hide DeleteObjects, StaleLogical, HasLinks, Unexpired;
      if now > MAX_LOGICAL_TIME { return Err(InvalidInput); }
      var expired, rows := {}, db.objects.Keys;
      while rows != {}
        invariant rows <= db.objects.Keys
        invariant expired == set id | id in db.objects.Keys - rows && db.objects[id].manifest.expiresAt <= now
      {
        var id :| id in rows;
        if db.objects[id].manifest.expiresAt <= now { expired := expired + {id}; }
        rows := rows - {id};
      }
      assert expired == ExpiredObjects(db, now);
      hide ExpiredObjects;
      var tx := DeleteAll(db, expired);
      var stale := StaleLogical(tx, now);
      if exists l :: l in stale && HasLinks(tx, l) { return Err(StorageUnavailable); }
      tx := tx.(logical := tx.logical - stale);
      tx := DropUnused(tx);
      tx := tx.(relayReceipts := Unexpired(tx.relayReceipts, now));
      tx := tx.(relayAcks := Unexpired(tx.relayAcks, now));
      db := tx;
      return Ok(|expired|);
    }

    /** Removes one logical message with every object linked to it, and unused reservations. */
    method RollbackLogicalMessage(logical: LogicalId)
      modifies this
      ensures db == Rollback(old(db), logical)
    {
      hide DeleteObjects;
      var objects := LinkedTo(db, logical).Keys;
      var tx := DeleteAll(db, objects);
      tx := tx.(logical := tx.logical - {logical});
      tx := DropUnused(tx);
      db := tx;
    }

    /** The aggregate state of one logical message. */
    method LogicalDeliverySummary(id: LogicalId, now: nat) returns (r: Result<Option<LogicalSummary>, DurableError>)
      ensures r == Summary(db, id, now)
    {
      if now > MAX_LOGICAL_TIME { return Err(InvalidInput); }
      if id !in db.logical { return Ok(None); }
      var row, committed := db.logical[id], |LinkedTo(db, id)|;
      var delivered := SumRows(ReceiptCounts(db, id));
      if committed > row.audienceCount || delivered > row.targetCount { return Err(Corrupt); }
      var state := Queued;
      if row.expiresAt <= now {
        state := ExpiredMessage;
      } else if committed == row.audienceCount && delivered == row.targetCount {
        state := Delivered;
      } else if delivered > 0 {
        state := PartiallyDelivered;
      }
      return Ok(Some(LogicalSummary(row.targetCount, row.audienceCount, committed, delivered, state)));
    }
  }

  /** Linking looks at the links and the logical messages only. */
  lemma SameLinks(db: Db, db': Db, logical: LogicalId, id: ObjectId, targetCount: nat)
    requires db'.links == db.links && db'.logical == db.logical
    ensures LinkLogical(db', logical, id, targetCount) == LinkLogical(db, logical, id, targetCount)
  {
    hide Total, LinkRows;
  }

  lemma KeyIn<V>(rows: map<ObjectId, V>, id: ObjectId, value: V)
    ensures id in InsertOrIgnore(rows, id, value)
  {
  }
}
