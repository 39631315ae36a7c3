/** In every run of the network, sequences of a member's own objects are ones its store has handed out. */
module NetworkSequences {
  import opened Types
  import opened Protocol
  import opened Tables
  import opened TablesInvariant
  import opened StoreRuns
  import opened Network

  /** Objects of this member carry sequences that were handed out. */
  ghost predicate OwnBelow(member: MemberId, db: Db) {
    forall id :: id in db.objects && id.manifest.origin == member ==> id.manifest.sequence < db.nextSequence
  }

  /** Which objects a transaction can add. */
  ghost predicate Adds(member: MemberId, db: Db, op: Op, id: ObjectId) {
    || (op.CommitOp? && id == op.prepared.manifest.Id() && id.manifest.sequence < db.nextSequence)
    || (op.AnnounceAuthenticatedOp? && id == op.authenticated.Manifest().Id())
    || op.AnnounceOp?
  }

  lemma CommitAdds(member: MemberId, db: Db, limits: Limits, op: OperationId, hash: nat, prepared: PreparedObject, at: nat,
    announcement: Option<Announcement>, link: Option<LogicalId>)
    requires OperationsOk(member, db.nextSequence, db.operations, db.objects)
    requires CommitOutgoing(db, member, limits, op, hash, prepared, at, announcement, link).Done?
    ensures prepared.manifest.sequence < db.nextSequence && prepared.manifest.origin == member
    ensures forall id :: id in CommitOutgoing(db, member, limits, op, hash, prepared, at, announcement, link).db.objects ==>
              id in db.objects || id == prepared.manifest.Id()
  {
    hide ChunkRows, ChunksClash, Claimed, LinkLogical, ModeAllows, DeliverLegacy, RecordAnnouncement, InsertManifest;
    InsertedKeys(db, limits, prepared.manifest);
  }

  lemma InsertedKeys(db: Db, limits: Limits, m: Manifest)
    ensures InsertManifest(db, limits, m).Ok? ==> InsertManifest(db, limits, m).value.Keys == db.objects.Keys + {m.Id()}
  {
    hide Sums.Total, ReservedBytes, SameSlot;
  }

  lemma AnnounceAdds(db: Db, limits: Limits, a: Authenticated, roster: Roster, at: nat, id: ObjectId)
    ensures id in After(db, AnnounceAuthenticated(db, limits, a, roster, at)).objects ==> id in db.objects || id == a.Manifest().Id()
  {
    hide ModeAllows, RecordAnnouncement, InsertManifest, Authenticated.ValidateRoster, Live;
    InsertedKeys(db, limits, a.Manifest());
  }

  lemma CompleteChunkKeys(db: Db, member: MemberId, id: ObjectId, chunks: map<(ObjectId, nat), Bytes>, now: nat, relay: Option<RelayMetadata>)
    requires id in db.objects && CompleteChunk(db, member, id, chunks, now, relay).Done?
    ensures CompleteChunk(db, member, id, chunks, now, relay).db.objects.Keys == db.objects.Keys
  {
    hide RelayFrames, InsertOrIgnore;
  }

  lemma PutChunkKeys(db: Db, member: MemberId, id: ObjectId, index: nat, bytes: Bytes, at: nat, relay: Option<RelayMetadata>)
    ensures After(db, PutChunk(db, member, id, index, bytes, at, relay)).objects.Keys == db.objects.Keys
  {
    hide InsertChunk, IndicesIn, ModeAllows, CompleteChunk, Manifest.VerifyChunk, Live;
    if PutChunk(db, member, id, index, bytes, at, relay).Done? {
      var chunks := InsertChunk(db, id, index, bytes).value;
      if |IndicesIn(chunks, id)| == |db.objects[id].manifest.hashes| {
        CompleteChunkKeys(db, member, id, chunks, at, relay);
      }
    }
  }

  lemma StageChunkKeys(db: Db, id: ObjectId, index: nat, bytes: Bytes, at: nat)
    ensures After(db, StageChunk(db, id, index, bytes, at)).objects == db.objects
  {
    hide InsertChunk, IndicesIn, Manifest.VerifyChunk, Live;
  }

  lemma FinalizeKeys(db: Db, member: MemberId, proof: VerifiedDelivery, roster: Roster, key: nat, signature: nat, at: nat)
    ensures After(db, FinalizeReceived(db, member, proof, roster, key, signature, at)).objects.Keys == db.objects.Keys
  {
    hide ChunkError, Authenticated.ValidateRoster, VerifiedDelivery.ValidateCommit, VerifiedDelivery.ReceiptForCommit;
    var o := FinalizeReceived(db, member, proof, roster, key, signature, at);
    if o.Done? { assert o.db.objects == db.objects || o.db.objects == Completed(db.objects, proof.Subject()); }
  }

  lemma RecordTargetKeys(db: Db, member: MemberId, proof: VerifiedReceipt, roster: Roster, at: nat)
    ensures After(db, RecordTargetReceipt(db, member, proof, roster, at)).objects == db.objects
  {
    hide ProgressFrom, VerifiedReceipt.ValidateCommit, Committed, InsertOrIgnore;
    var o := RecordTargetReceipt(db, member, proof, roster, at);
    if o.Done? { assert o.db == db.(targetReceipts := o.db.targetReceipts, outbox := o.db.outbox); }
  }

  lemma RecordAckKeys(db: Db, member: MemberId, ack: Ack, roster: Roster, at: nat)
    ensures After(db, RecordReceiptAck(db, member, ack, roster, at)).objects == db.objects
  {
    hide InsertOrIgnore, Roster.ValidateAt;
    var o := RecordReceiptAck(db, member, ack, roster, at);
    if o.Done? { assert o.db == db.(acknowledged := o.db.acknowledged); }
  }

  lemma OriginAckKeys(db: Db, member: MemberId, id: ObjectId, actor: MemberId, envelope: Result<Envelope, DurableError>,
    roster: Roster, key: nat, signature: nat, at: nat, oracle: Oracle)
    ensures After(db, OriginReceiptAck(db, member, id, actor, envelope, roster, key, signature, at, oracle)).objects == db.objects
  {
    hide VerifyTargetReceipt, VerifyAck, Roster.ValidateAt, IssueAck;
  }

  lemma ReserveKeys(db: Db, limits: Limits, op: OperationId, hash: nat)
    ensures After(db, Reserve(db, limits, op, hash)).objects == db.objects
  {
    var o := Reserve(db, limits, op, hash);
    if o.Done? { assert o.db == db.(nextSequence := o.db.nextSequence, operations := o.db.operations); }
  }

  lemma BeginKeys(db: Db, id: LogicalId, targetCount: nat, audienceCount: nat, expiresAt: nat, now: nat)
    ensures After(db, BeginLogical(db, id, targetCount, audienceCount, expiresAt, now)).objects == db.objects
  {
    var o := BeginLogical(db, id, targetCount, audienceCount, expiresAt, now);
    if o.Done? { assert o.db == db.(logical := o.db.logical); }
  }

  lemma RelayKeys(db: Db, member: MemberId, limits: Limits, op: Op)
    requires op.PutRelayReceiptOp? || op.PutRelayAckOp? || op.RemoveRelayReceiptOp?
    ensures Apply(member, limits, db, op).objects == db.objects
  {
    hide Retain;
  }

  lemma DeleteKeys(db: Db, now: nat, logical: LogicalId)
    ensures After(db, Prune(db, now)).objects.Keys <= db.objects.Keys
    ensures Rollback(db, logical).objects.Keys <= db.objects.Keys
  {
    hide StaleLogical, HasLinks, ExpiredObjects, Unexpired, LinkRows, OfOthers, OthersReservations, UsedReservations;
  }

  /** Only a commit or an announcement adds an object; a commit adds one with a reserved sequence. */
  lemma OpAdds(member: MemberId, limits: Limits, db: Db, op: Op, id: ObjectId)
    requires Inv(member, db) && id in Apply(member, limits, db, op).objects
    ensures id in db.objects || Adds(member, db, op, id)
  {
    hide ObjectsOk, ChunksOk, CompleteOk, ModesOk, RelayOk, DeliveriesOk, OperationsOk, ReceiptsOk, OutboxOk, LinksOk, After, Reserve,
      BeginLogical, CommitOutgoing, Announce, AnnounceAuthenticated, PutChunk, StageChunk, FinalizeReceived, OriginReceiptAck, PutRelayAck,
      RecordTargetReceipt, RecordReceiptAck, PutRelayReceipt, Prune, Rollback;
    match op {
      case CommitOp(operation, hash, prepared, at, announcement, link) =>
        CommitKeys(member, db, limits, operation, hash, prepared, at, announcement, link, id);
      case AnnounceAuthenticatedOp(a, roster, at) => AnnounceAdds(db, limits, a, roster, at, id);
      case AnnounceOp(_, _) =>
      case PutChunkOp(subject, index, bytes, at, relay) => PutChunkKeys(db, member, subject, index, bytes, at, relay);
      case StageChunkOp(subject, index, bytes, at) => StageChunkKeys(db, subject, index, bytes, at);
      case FinalizeOp(proof, roster, key, signature, at) => FinalizeKeys(db, member, proof, roster, key, signature, at);
      case RecordReceiptOp(proof, roster, at) => RecordTargetKeys(db, member, proof, roster, at);
      case RecordAckOp(ack, roster, at) => RecordAckKeys(db, member, ack, roster, at);
      case OriginAckOp(subject, actor, envelope, roster, key, signature, at, oracle) =>
        OriginAckKeys(db, member, subject, actor, envelope, roster, key, signature, at, oracle);
      case PruneOp(at) => DeleteKeys(db, at, 0);
      case RollbackOp(logical) => DeleteKeys(db, 0, logical);
      case ReserveOp(operation, hash) => ReserveKeys(db, limits, operation, hash);
      case BeginOp(logical, targets, audiences, expiresAt, at) => BeginKeys(db, logical, targets, audiences, expiresAt, at);
      case _ => RelayKeys(db, member, limits, op);
    }
  }

  lemma CommitKeys(member: MemberId, db: Db, limits: Limits, op: OperationId, hash: nat, prepared: PreparedObject, at: nat,
    announcement: Option<Announcement>, link: Option<LogicalId>, id: ObjectId)
    requires OperationsOk(member, db.nextSequence, db.operations, db.objects)
    requires id in After(db, CommitOutgoing(db, member, limits, op, hash, prepared, at, announcement, link)).objects
    ensures id in db.objects || (id == prepared.manifest.Id() && id.manifest.sequence < db.nextSequence)
  {
    hide CommitOutgoing, OperationsOk;
    if CommitOutgoing(db, member, limits, op, hash, prepared, at, announcement, link).Done? {
      CommitAdds(member, db, limits, op, hash, prepared, at, announcement, link);
    }
  }

  // ----- the network -----

  /** Every announcement a member signed carries a sequence its store handed out. */
  ghost predicate SignedBelow(net: Net) {
    forall a :: a in net.oracle.announcements && a.manifest.origin in net.stores ==>
      a.manifest.sequence < net.stores[a.manifest.origin].nextSequence
  }

  ghost predicate Sequenced(net: Net) {
    && (forall m :: m in net.stores ==> Inv(m, net.stores[m]) && OwnBelow(m, net.stores[m]))
    && SignedBelow(net)
  }

  /** The announcements a transaction uses are signed ones, and hosts announce nothing unsigned. */
  ghost predicate SignedOp(net: Net, op: Op) {
    && !op.AnnounceOp?
    && (op.AnnounceAuthenticatedOp? ==> op.authenticated.announcement in net.oracle.announcements)
  }

  lemma TransactionsSigned(net: Net, db: Db, member: MemberId, limits: Limits, action: Action)
    ensures forall op :: op in Transactions(db, member, limits, net.oracle, action) ==> SignedOp(net, op)
  {
    hide PreparedObject.Valid, VerifyTargetReceipt, PutRelayAck, VerifyReceived, Deliverable, Authenticated.ValidateRoster,
      Roster.ValidateAt, VerifyAck, WellFormed;
  }

  lemma OpSequenced(net: Net, member: MemberId, limits: Limits, db: Db, op: Op)
    requires member in net.stores && SignedBelow(net) && SignedOp(net, op) && WellFormed(op)
    requires Inv(member, db) && OwnBelow(member, db) && net.stores[member].nextSequence <= db.nextSequence
    ensures
      var db' := Apply(member, limits, db, op);
      Inv(member, db') && OwnBelow(member, db') && db.nextSequence <= db'.nextSequence
  {
    hide Inv, Apply, WellFormed;
    ApplyKeeps(member, limits, db, op);
    var db' := Apply(member, limits, db, op);
    assert db.nextSequence <= db'.nextSequence;
    hide Persists;
    forall id | id in db'.objects && id.manifest.origin == member ensures id.manifest.sequence < db'.nextSequence {
      OpAdds(member, limits, db, op, id);
    }
  }

  lemma {:induction false} RunSequenced(net: Net, member: MemberId, limits: Limits, db: Db, ops: seq<Op>)
    requires member in net.stores && SignedBelow(net) && AllWellFormed(ops) && forall op :: op in ops ==> SignedOp(net, op)
    requires Inv(member, db) && OwnBelow(member, db) && net.stores[member].nextSequence <= db.nextSequence
    ensures
      var db' := Run(member, limits, db, ops);
      Inv(member, db') && OwnBelow(member, db') && db.nextSequence <= db'.nextSequence
    decreases |ops|
  {
    hide Inv, OwnBelow, Apply, WellFormed, SignedBelow, SignedOp;
    if ops != [] {
      OpSequenced(net, member, limits, db, ops[0]);
      RunSequenced(net, member, limits, Apply(member, limits, db, ops[0]), ops[1..]);
    }
  }

  /** A sealed object that is signed was committed under a reserved sequence of its origin. */
  lemma SignedAdds(db: Db, member: MemberId, limits: Limits, oracle: Oracle, action: Action, a: Announcement)
    requires Inv(member, db)
    requires a in Signed(db, member, limits, oracle, action).announcements && a !in oracle.announcements
    ensures a.manifest.origin == member && a.manifest.sequence < db.nextSequence
  {
    hide ObjectsOk, ChunksOk, CompleteOk, ModesOk, RelayOk, DeliveriesOk, OperationsOk, ReceiptsOk, OutboxOk, LinksOk, Transactions,
      CommitOutgoing, FinalizeReceived, OriginReceiptAck;
    if action.Seal? {
      CommitAdds(member, db, limits, action.operation, action.commandHash, action.prepared, action.at, Some(a), action.logical);
    }
  }

  lemma StepSequenced(limits: Limits, net: Net, who: MemberId, action: Action)
    requires Sequenced(net) && who in net.stores
    ensures Sequenced(Step(limits, net, who, action))
  {
    hide Inv, OwnBelow, Transactions, Signed, Run, AllWellFormed, SignedOp;
    var db, net' := net.stores[who], Step(limits, net, who, action);
    var ops := Transactions(db, who, limits, net.oracle, action);
    TransactionsWellFormed(db, who, limits, net.oracle, action);
    TransactionsSigned(net, db, who, limits, action);
    RunSequenced(net, who, limits, db, ops);
    forall a | a in net'.oracle.announcements && a.manifest.origin in net'.stores
      ensures a.manifest.sequence < net'.stores[a.manifest.origin].nextSequence
    {
      if a !in net.oracle.announcements { SignedAdds(db, who, limits, net.oracle, action, a); }
    }
  }

  /** In every run no store holds an object of its own member under a sequence still to be handed out. */
  lemma {:induction false} OwnSequencesHandedOut(limits: Limits, run: seq<Net>)
    requires IsRun(limits, run)
    ensures Sequenced(run[|run| - 1])
    decreases |run|
  {
    hide Sequenced, Step;
    var last := |run| - 1;
    if last == 0 {
      StartSequenced(run[0]);
    } else {
      OwnSequencesHandedOut(limits, run[..last]);
      assert Next(limits, run[last - 1], run[last]);
      var who, action :| who in run[last - 1].stores && run[last] == Step(limits, run[last - 1], who, action);
      StepSequenced(limits, run[last - 1], who, action);
    }
  }

  lemma StartSequenced(net: Net)
    requires Initial(net)
    ensures Sequenced(net)
  {
    hide Inv;
    forall m | m in net.stores ensures Inv(m, net.stores[m]) { EmptyInv(m); }
  }
}
