/** Every run of a store: the transactions in any order, with any arguments, any of them failing. */
module StoreRuns {
  import opened Types
  import opened Sums
  import opened Protocol
  import opened Tables
  import opened TablesInvariant

  datatype Op =
    | ReserveOp(op: OperationId, commandHash: nat)
    | BeginOp(logical: LogicalId, targetCount: nat, audienceCount: nat, expiresAt: nat, at: nat)
    | CommitOp(op: OperationId, commandHash: nat, prepared: PreparedObject, at: nat,
        announcement: Option<Announcement>, link: Option<LogicalId>)
    | AnnounceOp(manifest: Manifest, at: nat)
    | AnnounceAuthenticatedOp(authenticated: Authenticated, roster: Roster, at: nat)
    | PutChunkOp(id: ObjectId, index: nat, bytes: Bytes, at: nat, relay: Option<RelayMetadata>)
    | StageChunkOp(id: ObjectId, index: nat, bytes: Bytes, at: nat)
    | FinalizeOp(delivery: VerifiedDelivery, roster: Roster, signerKey: nat, signature: nat, at: nat)
    | RecordReceiptOp(receipt: VerifiedReceipt, roster: Roster, at: nat)
    | OriginAckOp(id: ObjectId, actor: MemberId, envelope: Result<Envelope, DurableError>, roster: Roster, signerKey: nat,
        signature: nat, at: nat, oracle: Oracle)
    | RecordAckOp(ack: Ack, roster: Roster, at: nat)
    | PutRelayReceiptOp(relayed: Receipt, frame: RelayFrame, receivedFrom: MemberId, at: nat)
    | RemoveRelayReceiptOp(receiptId: ReceiptId)
    | PutRelayAckOp(ack: Ack, frame: RelayFrame, receivedFrom: MemberId, at: nat)
    | PruneOp(at: nat)
    | RollbackOp(logical: LogicalId)

  /** What the argument types of the store guarantee: manifests and prepared objects are only built valid. */
  predicate WellFormed(op: Op) {
    match op
    case CommitOp(_, _, prepared, _, announcement, _) =>
      prepared.Valid() && (announcement.Some? ==> announcement.value.manifest == prepared.manifest)
    case AnnounceOp(manifest, _) => manifest.Valid()
    case AnnounceAuthenticatedOp(a, _, _) => a.Manifest().Valid()
    case _ => true
  }

  ghost function Apply(member: MemberId, limits: Limits, db: Db, op: Op): Db {
    match op
    case ReserveOp(id, hash) => After(db, Reserve(db, limits, id, hash))
    case BeginOp(logical, targets, audiences, expiresAt, at) => After(db, BeginLogical(db, logical, targets, audiences, expiresAt, at))
    case CommitOp(id, hash, prepared, at, announcement, link) =>
      After(db, CommitOutgoing(db, member, limits, id, hash, prepared, at, announcement, link))
    case AnnounceOp(manifest, at) => After(db, Announce(db, limits, manifest, at))
    case AnnounceAuthenticatedOp(a, roster, at) => After(db, AnnounceAuthenticated(db, limits, a, roster, at))
    case PutChunkOp(id, index, bytes, at, relay) => After(db, PutChunk(db, member, id, index, bytes, at, relay))
    case StageChunkOp(id, index, bytes, at) => After(db, StageChunk(db, id, index, bytes, at))
    case FinalizeOp(delivery, roster, key, signature, at) => After(db, FinalizeReceived(db, member, delivery, roster, key, signature, at))
    case RecordReceiptOp(receipt, roster, at) => After(db, RecordTargetReceipt(db, member, receipt, roster, at))
    case OriginAckOp(id, actor, envelope, roster, key, signature, at, oracle) =>
      After(db, OriginReceiptAck(db, member, id, actor, envelope, roster, key, signature, at, oracle))
    case RecordAckOp(ack, roster, at) => After(db, RecordReceiptAck(db, member, ack, roster, at))
    case PutRelayReceiptOp(receipt, frame, from, at) => After(db, PutRelayReceipt(db, member, limits, receipt, frame, from, at))
    case RemoveRelayReceiptOp(id) => RemoveRelayReceipt(db, id)
    case PutRelayAckOp(ack, frame, from, at) => After(db, PutRelayAck(db, member, limits, ack, frame, from, at))
    case PruneOp(at) => After(db, Prune(db, at))
    case RollbackOp(logical) => Rollback(db, logical)
  }

  lemma ApplyKeeps(member: MemberId, limits: Limits, db: Db, op: Op)
    requires Inv(member, db) && WellFormed(op)
    ensures Inv(member, Apply(member, limits, db, op)) && Persists(db, Apply(member, limits, db, op))
  {
    hide Inv, Persists, After, Reserve, BeginLogical, CommitOutgoing, Announce, AnnounceAuthenticated, PutChunk, StageChunk,
      FinalizeReceived, RecordTargetReceipt, OriginReceiptAck, RecordReceiptAck, PutRelayReceipt, PutRelayAck, Prune, Rollback,
      PreparedObject.Valid, Manifest.Valid, RemoveRelayReceipt;
    match op
    case ReserveOp(id, hash) => ReserveKeeps(member, db, limits, id, hash);
    case BeginOp(logical, targets, audiences, expiresAt, at) => BeginKeeps(member, db, logical, targets, audiences, expiresAt, at);
    case CommitOp(id, hash, prepared, at, announcement, link) =>
      CommitKeeps(member, db, limits, id, hash, prepared, at, announcement, link);
    case AnnounceOp(manifest, at) => AnnounceKeeps(member, db, limits, manifest, at);
    case AnnounceAuthenticatedOp(a, roster, at) => AnnounceAuthenticatedKeeps(member, db, limits, a, roster, at);
    case PutChunkOp(id, index, bytes, at, relay) => PutChunkKeeps(member, db, id, index, bytes, at, relay);
    case StageChunkOp(id, index, bytes, at) => StageChunkKeeps(member, db, id, index, bytes, at);
    case FinalizeOp(delivery, roster, key, signature, at) => FinalizeKeeps(member, db, delivery, roster, key, signature, at);
    case RecordReceiptOp(receipt, roster, at) => RecordTargetKeeps(member, db, receipt, roster, at);
    case OriginAckOp(id, actor, envelope, roster, key, signature, at, oracle) =>
      OriginAckKeeps(member, db, id, actor, envelope, roster, key, signature, at, oracle);
    case RecordAckOp(ack, roster, at) => RecordAckKeeps(member, db, ack, roster, at);
    case PruneOp(at) => PruneKeeps(member, db, at);
    case RollbackOp(logical) => RollbackKeeps(member, db, logical);
    case _ => RelayCustodyKeeps(member, limits, db, op);
  }

  lemma RelayCustodyKeeps(member: MemberId, limits: Limits, db: Db, op: Op)
    requires Inv(member, db) && (op.PutRelayReceiptOp? || op.RemoveRelayReceiptOp? || op.PutRelayAckOp?)
    ensures Inv(member, Apply(member, limits, db, op)) && Persists(db, Apply(member, limits, db, op))
  {
    hide Inv, Persists, Apply;
    CustodyOnly(member, limits, db, op);
    RelayRowsKeep(member, db, Apply(member, limits, db, op));
  }

  /** Custody of receipts and acknowledgements touches no other table. */
  lemma CustodyOnly(member: MemberId, limits: Limits, db: Db, op: Op)
    requires op.PutRelayReceiptOp? || op.RemoveRelayReceiptOp? || op.PutRelayAckOp?
    ensures
      var db' := Apply(member, limits, db, op);
      db' == db.(relayReceipts := db'.relayReceipts, relayAcks := db'.relayAcks)
  {
    hide Retain;
    assert db == db.(relayReceipts := db.relayReceipts, relayAcks := db.relayAcks);
  }

  // ----- runs -----

  ghost function Run(member: MemberId, limits: Limits, db: Db, ops: seq<Op>): Db
    decreases |ops|
  {
    if ops == [] then db else Run(member, limits, Apply(member, limits, db, ops[0]), ops[1..])
  }

  predicate AllWellFormed(ops: seq<Op>) { forall i :: 0 <= i < |ops| ==> WellFormed(ops[i]) }

  lemma {:induction false} RunKeeps(member: MemberId, limits: Limits, db: Db, ops: seq<Op>)
    requires Inv(member, db) && AllWellFormed(ops)
    ensures Inv(member, Run(member, limits, db, ops))
    decreases |ops|
  {
    hide Inv, WellFormed, Apply;
    if ops != [] {
      ApplyKeeps(member, limits, db, ops[0]);
      RunKeeps(member, limits, Apply(member, limits, db, ops[0]), ops[1..]);
    }
  }

  /** Every store reachable from an empty one satisfies the invariant. */
  lemma ReachableInv(member: MemberId, limits: Limits, ops: seq<Op>)
    requires AllWellFormed(ops)
    ensures Inv(member, Run(member, limits, EMPTY, ops))
  {
    EmptyInv(member);
    RunKeeps(member, limits, EMPTY, ops);
  }

  /** The object is stored in the starting tables and after every transaction of the run. */
  ghost predicate Stays(member: MemberId, limits: Limits, db: Db, ops: seq<Op>, id: ObjectId)
    decreases |ops|
  {
    id in db.objects && (ops != [] ==> Stays(member, limits, Apply(member, limits, db, ops[0]), ops[1..], id))
  }

  predicate SameRow<V(==)>(rows: map<ObjectId, V>, rows': map<ObjectId, V>, id: ObjectId) {
    id in rows ==> id in rows' && rows'[id] == rows[id]
  }

  /** Whatever a run does, an object it never deletes keeps its mode, announcement, forwarding frame, delivery and receipt. */
  ghost predicate KeepsObject(db: Db, db': Db, id: ObjectId) {
    && id in db.objects && id in db'.objects
    && (db.objects[id].complete ==> db'.objects[id].complete)
    && (id in db.announcements <==> id in db'.announcements)
    && SameRow(db.announcements, db'.announcements, id)
    && SameRow(db.relayMetadata, db'.relayMetadata, id)
    && SameRow(db.localDeliveries, db'.localDeliveries, id)
    && SameRow(db.deliveries, db'.deliveries, id)
  }

  lemma PersistsKeepsObject(db: Db, db': Db, id: ObjectId)
    requires Persists(db, db') && id in db.objects && id in db'.objects
    ensures KeepsObject(db, db', id)
  {
  }

  lemma {:induction false} RunKeepsObject(member: MemberId, limits: Limits, db: Db, ops: seq<Op>, id: ObjectId)
    requires Inv(member, db) && AllWellFormed(ops) && Stays(member, limits, db, ops, id)
    ensures KeepsObject(db, Run(member, limits, db, ops), id)
    decreases |ops|
  {
    hide Inv, WellFormed, Apply, Persists;
    if ops != [] {
      var next := Apply(member, limits, db, ops[0]);
      ApplyKeeps(member, limits, db, ops[0]);
      assert id in next.objects;
      PersistsKeepsObject(db, next, id);
      RunKeepsObject(member, limits, next, ops[1..], id);
    }
  }

  /** Sequences are handed out at most once: no run, with any pruning or rollback in it, lowers the next one. */
  lemma {:induction false} SequenceNeverReused(member: MemberId, limits: Limits, db: Db, ops: seq<Op>, op: OperationId, hash: nat)
    requires Inv(member, db) && AllWellFormed(ops)
    ensures Run(member, limits, db, ops).nextSequence >= db.nextSequence
    ensures
      var db' := Run(member, limits, db, ops);
      op !in db'.operations && Reserve(db', limits, op, hash).Done? ==>
        && (forall p :: p in db.operations ==> db.operations[p].sequence < Reserve(db', limits, op, hash).value.sequence)
        && (forall p :: p in db'.operations ==> db'.operations[p].sequence < Reserve(db', limits, op, hash).value.sequence)
    decreases |ops|
  {
    hide WellFormed, Apply, ObjectsOk, ChunksOk, CompleteOk, ModesOk, RelayOk, DeliveriesOk, ReceiptsOk, OutboxOk, LinksOk, Claims;
    RunKeeps(member, limits, db, ops);
    if ops != [] {
      ApplyKeeps(member, limits, db, ops[0]);
      hide Inv;
      SequenceNeverReused(member, limits, Apply(member, limits, db, ops[0]), ops[1..], op, hash);
    }
  }

  // ----- what the invariant says about the queries -----

  /** The rows the relay scheduler is given. */
  function RelayQueue(db: Db, now: nat): set<ObjectId> {
    set id | id in db.relayOutbox && id in db.relayMetadata && db.relayMetadata[id].frame.expiresAt > now
  }

  /** A queued relay object was announced with a signature, is whole and genuine, and its frame is bound to its manifest. */
  lemma RelayQueueSound(member: MemberId, db: Db, now: nat, id: ObjectId)
    requires Inv(member, db) && id in RelayQueue(db, now)
    ensures id in db.announcements && db.announcements[id].manifest == id.manifest
    ensures id in db.objects && db.objects[id].complete && id.manifest.origin != member
    ensures FrameBound(db.relayMetadata[id].frame, id.manifest)
    ensures forall i :: 0 <= i < |id.manifest.hashes| ==> (id, i) in db.chunks && id.manifest.Fits(i, db.chunks[(id, i)])
  {
    hide DeliveriesOk, OperationsOk, ReceiptsOk, OutboxOk, LinksOk, FrameBound, Manifest.Fits, Manifest.Valid, SameSlot;
    assert AllChunks(id, db.chunks);
  }

  /** `complete` is never set early: the scan of the chunk rows finds nothing missing or altered. */
  lemma CompleteIsWhole(member: MemberId, db: Db, id: ObjectId)
    requires Inv(member, db) && id in db.objects && db.objects[id].complete
    ensures ChunkError(db, id, db.objects[id].manifest, 0).None?
    ensures IndicesIn(db.chunks, id) == Below(|id.manifest.hashes|)
  {
    hide DeliveriesOk, OperationsOk, ReceiptsOk, OutboxOk, LinksOk, ModesOk, RelayOk, Manifest.Fits, Manifest.Valid, SameSlot;
    assert AllChunks(id, db.chunks) && db.objects[id].manifest.Id() == id;
    forall i | 0 <= i < |id.manifest.hashes| ensures (id, i) in db.chunks && id.manifest.Fits(i, db.chunks[(id, i)]) {}
    NoChunkError(db, id, id.manifest, 0);
    forall i: nat ensures i in IndicesIn(db.chunks, id) <==> i < |id.manifest.hashes| {
      if i in IndicesIn(db.chunks, id) {
        assert (id, i) in db.chunks && id.manifest.Fits(i, db.chunks[(id, i)]);
        FitsBound(id.manifest, i, db.chunks[(id, i)]);
      }
      if i < |id.manifest.hashes| { assert (id, i) in db.chunks; }
    }
  }

  lemma FitsBound(m: Manifest, i: nat, bytes: Bytes)
    requires m.Fits(i, bytes)
    ensures i < |m.hashes|
  {
  }

  /** In every reachable store an authenticated object is delivered exactly when it has this member's signed receipt. */
  lemma DeliveredIffReceipt(member: MemberId, db: Db, id: ObjectId)
    requires Inv(member, db) && id in db.announcements
    ensures id in db.localDeliveries <==> ReceiptFrom(db, id).Some?
    ensures ReceiptFrom(db, id).Some? ==>
      var r := ReceiptFrom(db, id).value.receipt; r.objectId == id && r.actor == member && r.origin == id.manifest.origin
  {
    hide ObjectsOk, ChunksOk, CompleteOk, ModesOk, RelayOk, OperationsOk, ReceiptsOk, OutboxOk, LinksOk;
  }

  /** The progress query never finds more confirmations than targets, and agrees with the outbox. */
  lemma ProgressNeverCorrupt(member: MemberId, db: Db, id: ObjectId, now: nat)
    requires Inv(member, db) && id in db.objects
    ensures ProgressFrom(db.targetReceipts, id.manifest, now).Ok?
    ensures Committed(db.operations, id) ==>
      (ProgressFrom(db.targetReceipts, id.manifest, now).value.state.DeliveredToAll? <==> id !in db.outbox)
  {
    hide ObjectsOk, ChunksOk, CompleteOk, ModesOk, RelayOk, DeliveriesOk, OperationsOk, LinksOk, Committed, Confirmed, AllConfirmed, Manifest.Valid;
    RowOf(member, db, id);
    ReceiptTargets(db.announcements, db.operations, db.targetReceipts, db.originAcks, id);
    ConfirmedCount(id, db.targetReceipts);
  }

  /** Receipts of a linked object never exceed the targets its link counts, and reach them when it leaves the outbox. */
  lemma LinkedCount(member: MemberId, db: Db, logical: LogicalId, id: ObjectId)
    requires Inv(member, db) && id in LinkedTo(db, logical)
    ensures |Confirmed(db.targetReceipts, id)| <= LinkedTo(db, logical)[id]
    ensures |Confirmed(db.targetReceipts, id)| == LinkedTo(db, logical)[id] <==> id !in db.outbox
  {
    hide ObjectsOk, ChunksOk, CompleteOk, ModesOk, RelayOk, DeliveriesOk, Confirmed, AllConfirmed, Manifest.Valid, WithinTotals;
    var op :| op in db.operations && db.operations[op].objectId == Some(id);
    RowOf(member, db, id);
    hide Committed, OperationsOk;
    ReceiptTargets(db.announcements, db.operations, db.targetReceipts, db.originAcks, id);
    ConfirmedCount(id, db.targetReceipts);
  }

  lemma DeliveredCount(member: MemberId, db: Db, logical: LogicalId)
    requires Inv(member, db)
    ensures Total(ReceiptCounts(db, logical)) <= Total(LinkedTo(db, logical))
    ensures Total(ReceiptCounts(db, logical)) == Total(LinkedTo(db, logical)) <==> LinkedTo(db, logical).Keys !! db.outbox
  {
    hide Inv, Confirmed, LinkRows;
    var counts, linked := ReceiptCounts(db, logical), LinkedTo(db, logical);
    forall id | id in linked
      ensures counts[id] <= linked[id] && (counts[id] == linked[id] <==> id !in db.outbox) {
      LinkedCount(member, db, logical, id);
    }
    TotalAtMost(counts, linked);
    if linked.Keys !! db.outbox { assert counts == linked; }
  }

  /** Linked audiences and targets stay within what the message declared. */
  lemma LinkedWithinTotals(member: MemberId, db: Db, logical: LogicalId)
    requires Inv(member, db) && logical in db.logical
    ensures |LinkedTo(db, logical)| <= db.logical[logical].audienceCount
    ensures Total(LinkedTo(db, logical)) <= db.logical[logical].targetCount
  {
    hide ObjectsOk, ChunksOk, CompleteOk, ModesOk, RelayOk, DeliveriesOk, OperationsOk, ReceiptsOk, OutboxOk, Committed, LinkRows;
  }

  /** Every audience of the message is linked, and their targets are all the message's targets. */
  ghost predicate FullyLinked(db: Db, logical: LogicalId)
    requires logical in db.logical
  {
    && |LinkedTo(db, logical)| == db.logical[logical].audienceCount
    && Total(LinkedTo(db, logical)) == db.logical[logical].targetCount
  }

  /**
   * The aggregate query cannot report corruption; and an unexpired message is delivered exactly when all its audiences
   * are linked and none of their objects is left in the outbox.
   */
  lemma SummaryExact(member: MemberId, db: Db, logical: LogicalId, now: nat)
    requires Inv(member, db) && now <= MAX_LOGICAL_TIME
    ensures Summary(db, logical, now).Ok?
    ensures Summary(db, logical, now).value.Some? <==> logical in db.logical
    ensures logical in db.logical && now < db.logical[logical].expiresAt ==>
      (Summary(db, logical, now).value.value.state.Delivered? <==> FullyLinked(db, logical) && LinkedTo(db, logical).Keys !! db.outbox)
  {
    hide Inv, LinkedTo, ReceiptCounts, Total;
    if logical in db.logical {
      DeliveredCount(member, db, logical);
      LinkedWithinTotals(member, db, logical);
    }
  }

  /** The pairs of an object of the message and a target whose receipt is recorded. */
  function ConfirmedPairs(db: Db, logical: LogicalId): set<(ObjectId, MemberId)> {
    set k | k in db.targetReceipts && k.0 in db.links && db.links[k.0].logical == logical
  }

  /** The pairs recorded for some objects. */
  function PairsOf(receipts: map<(ObjectId, MemberId), Receipt>, ids: set<ObjectId>): set<(ObjectId, MemberId)> {
    set k | k in receipts && k.0 in ids
  }

  lemma {:induction false} SecondsCount(pairs: set<(ObjectId, MemberId)>, id: ObjectId)
    requires forall k :: k in pairs ==> k.0 == id
    ensures |pairs| == |set k | k in pairs :: k.1|
  {
    if pairs != {} {
      var k :| k in pairs;
      SecondsCount(pairs - {k}, id);
      assert (set j | j in pairs :: j.1) == (set j | j in pairs - {k} :: j.1) + {k.1};
      assert k.1 !in (set j | j in pairs - {k} :: j.1);
    }
  }

  lemma OneObject(receipts: map<(ObjectId, MemberId), Receipt>, id: ObjectId)
    ensures |PairsOf(receipts, {id})| == |Confirmed(receipts, id)|
  {
    SecondsCount(PairsOf(receipts, {id}), id);
    assert Confirmed(receipts, id) == set k | k in PairsOf(receipts, {id}) :: k.1;
  }

  function CountsOf(receipts: map<(ObjectId, MemberId), Receipt>, ids: set<ObjectId>): map<ObjectId, nat> {
    map id | id in ids :: |Confirmed(receipts, id)|
  }

  lemma {:induction false} CountsArePairs(receipts: map<(ObjectId, MemberId), Receipt>, ids: set<ObjectId>)
    ensures Total(CountsOf(receipts, ids)) == |PairsOf(receipts, ids)|
  {
    hide Confirmed, Total;
    if ids == {} {
      assert CountsOf(receipts, ids) == map[] && PairsOf(receipts, ids) == {};
      EmptyTotal();
    } else {
      var id :| id in ids;
      CountsArePairs(receipts, ids - {id});
      OneObject(receipts, id);
      TotalSplit(CountsOf(receipts, ids), id);
      assert CountsOf(receipts, ids) - {id} == CountsOf(receipts, ids - {id});
      assert PairsOf(receipts, ids) == PairsOf(receipts, ids - {id}) + PairsOf(receipts, {id});
    }
  }

  lemma EmptyTotal()
    ensures Total<ObjectId>(map[]) == 0
  {
  }

  /**
   * A stored message's summary counts the recorded pairs of object and target; before its expiry it is queued while there is none,
   * delivered when every declared target has confirmed through every declared audience, and partially delivered in between.
   */
  lemma SummaryMeans(member: MemberId, db: Db, logical: LogicalId, now: nat)
    requires Inv(member, db) && now <= MAX_LOGICAL_TIME && logical in db.logical
    ensures Summary(db, logical, now).Ok? && Summary(db, logical, now).value.Some?
    ensures
      var s, row, pairs := Summary(db, logical, now).value.value, db.logical[logical], ConfirmedPairs(db, logical);
      && s.targetCount == row.targetCount && s.audienceCount == row.audienceCount
      && s.committedAudiences == |LinkedTo(db, logical)| <= row.audienceCount && s.deliveredTargets == |pairs| <= row.targetCount
      && (s.state.ExpiredMessage? <==> row.expiresAt <= now)
      && (now < row.expiresAt ==>
            && (s.state.Delivered? <==> FullyLinked(db, logical) && |pairs| == row.targetCount)
            && (s.state.Queued? <==> pairs == {} && !s.state.Delivered?)
            && (s.state.PartiallyDelivered? <==> pairs != {} && !s.state.Delivered?))
  {
    hide Inv, LinkRows, Confirmed, Total;
    SummaryExact(member, db, logical, now);
    DeliveredCount(member, db, logical);
    LinkedWithinTotals(member, db, logical);
    CountsArePairs(db.targetReceipts, LinkedTo(db, logical).Keys);
    LinkKeys(db, logical);
    assert ReceiptCounts(db, logical) == CountsOf(db.targetReceipts, LinkedTo(db, logical).Keys);
    assert ConfirmedPairs(db, logical) == PairsOf(db.targetReceipts, LinkedTo(db, logical).Keys);
  }

  lemma LinkKeys(db: Db, logical: LogicalId)
    ensures forall id :: id in LinkedTo(db, logical).Keys <==> id in db.links && db.links[id].logical == logical
  {
  }
}
