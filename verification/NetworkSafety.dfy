/** Delivery safety over every run of the network. */
module NetworkSafety {
  import opened Types
  import opened Protocol
  import opened Tables
  import opened TablesInvariant
  import opened StoreRuns
  import opened Network

  // ----- what each transaction can do to the tables that delivery is decided by -----

  ghost predicate SubMap<K, V>(rows: map<K, V>, rows': map<K, V>) {
    forall k :: k in rows ==> k in rows' && rows[k] == rows'[k]
  }

  /** No receipt or acknowledgement recorded, none dropped, nothing retired. */
  ghost predicate Calm(db: Db, db': Db) {
    && db'.targetReceipts == db.targetReceipts && db'.acknowledged == db.acknowledged
    && db'.relayReceipts == db.relayReceipts && db.outbox <= db'.outbox
  }

  predicate CalmOp(op: Op) {
    !(op.RecordReceiptOp? || op.RecordAckOp? || op.PutRelayReceiptOp? || op.RemoveRelayReceiptOp? || op.PruneOp? || op.RollbackOp?)
  }

  lemma CommitCalm(db: Db, member: MemberId, limits: Limits, op: OperationId, hash: nat, prepared: PreparedObject, at: nat,
    announcement: Option<Announcement>, link: Option<LogicalId>)
    ensures Calm(db, After(db, CommitOutgoing(db, member, limits, op, hash, prepared, at, announcement, link)))
  {
    hide InsertManifest, ChunkRows, ChunksClash, Claimed, LinkLogical, ModeAllows, DeliverLegacy, RecordAnnouncement;
  }

  lemma AnnounceCalm(db: Db, limits: Limits, m: Manifest, at: nat)
    ensures Calm(db, After(db, Announce(db, limits, m, at)))
  {
    hide InsertManifest, ModeAllows, Live;
    var o := Announce(db, limits, m, at);
    if o.Done? { assert o.db == db.(objects := InsertManifest(db, limits, m).value); }
  }

  lemma AnnounceAuthenticatedCalm(db: Db, limits: Limits, a: Authenticated, roster: Roster, at: nat)
    ensures Calm(db, After(db, AnnounceAuthenticated(db, limits, a, roster, at)))
  {
    hide InsertManifest, ModeAllows, RecordAnnouncement, Authenticated.ValidateRoster, Live;
  }

  lemma PutChunkFrame(db: Db, member: MemberId, id: ObjectId, index: nat, bytes: Bytes, at: nat, relay: Option<RelayMetadata>)
    requires PutChunk(db, member, id, index, bytes, at, relay).Done?
    ensures
      var db' := PutChunk(db, member, id, index, bytes, at, relay).db;
      db' == db.(chunks := db'.chunks, objects := db'.objects, relayOutbox := db'.relayOutbox,
                 relayMetadata := db'.relayMetadata, localDeliveries := db'.localDeliveries)
  {
    hide InsertChunk, IndicesIn, ModeAllows, InsertOrIgnore, RelayFrames, Completed, Manifest.VerifyChunk, Live;
    if |IndicesIn(InsertChunk(db, id, index, bytes).value, id)| == |db.objects[id].manifest.hashes| {
      assert PutChunk(db, member, id, index, bytes, at, relay) ==
             CompleteChunk(db, member, id, InsertChunk(db, id, index, bytes).value, at, relay);
    }
  }

  lemma PutChunkCalm(db: Db, member: MemberId, id: ObjectId, index: nat, bytes: Bytes, at: nat, relay: Option<RelayMetadata>)
    ensures Calm(db, After(db, PutChunk(db, member, id, index, bytes, at, relay)))
  {
    hide PutChunk;
    if PutChunk(db, member, id, index, bytes, at, relay).Done? { PutChunkFrame(db, member, id, index, bytes, at, relay); }
  }

  lemma StageChunkCalm(db: Db, id: ObjectId, index: nat, bytes: Bytes, at: nat)
    ensures Calm(db, After(db, StageChunk(db, id, index, bytes, at)))
  {
    hide InsertChunk, IndicesIn, Manifest.VerifyChunk, Live;
  }

  lemma FinalizeCalm(db: Db, member: MemberId, proof: VerifiedDelivery, roster: Roster, key: nat, signature: nat, at: nat)
    ensures Calm(db, After(db, FinalizeReceived(db, member, proof, roster, key, signature, at)))
  {
    hide Completed, ChunkError, Authenticated.ValidateRoster, VerifiedDelivery.ValidateCommit, VerifiedDelivery.ReceiptForCommit;
  }

  lemma OriginAckCalm(db: Db, member: MemberId, id: ObjectId, actor: MemberId, envelope: Result<Envelope, DurableError>,
    roster: Roster, key: nat, signature: nat, at: nat, oracle: Oracle)
    ensures Calm(db, After(db, OriginReceiptAck(db, member, id, actor, envelope, roster, key, signature, at, oracle)))
  {
    hide VerifyTargetReceipt, VerifyAck, Roster.ValidateAt, IssueAck;
  }

  lemma ReserveFrame(db: Db, limits: Limits, op: OperationId, hash: nat)
    requires Reserve(db, limits, op, hash).Done?
    ensures
      var db' := Reserve(db, limits, op, hash).db;
      db' == db.(nextSequence := db'.nextSequence, operations := db'.operations)
  {
  }

  lemma ReserveCalm(db: Db, limits: Limits, op: OperationId, hash: nat)
    ensures Calm(db, After(db, Reserve(db, limits, op, hash)))
  {
    hide Reserve;
    if Reserve(db, limits, op, hash).Done? { ReserveFrame(db, limits, op, hash); }
  }

  lemma BeginCalm(db: Db, id: LogicalId, targetCount: nat, audienceCount: nat, expiresAt: nat, now: nat)
    ensures Calm(db, After(db, BeginLogical(db, id, targetCount, audienceCount, expiresAt, now)))
  {
    var o := BeginLogical(db, id, targetCount, audienceCount, expiresAt, now);
    if o.Done? { assert o.db == db.(logical := o.db.logical); }
  }

  lemma RelayAckCalm(db: Db, member: MemberId, limits: Limits, ack: Ack, frame: RelayFrame, receivedFrom: MemberId, now: nat)
    ensures Calm(db, After(db, PutRelayAck(db, member, limits, ack, frame, receivedFrom, now)))
  {
    hide Retain;
  }

  lemma CalmOps(member: MemberId, limits: Limits, db: Db, op: Op)
    requires CalmOp(op)
    ensures Calm(db, Apply(member, limits, db, op))
  {
    hide Calm, After, Reserve, BeginLogical, CommitOutgoing, Announce, AnnounceAuthenticated, PutChunk, StageChunk,
      FinalizeReceived, OriginReceiptAck, PutRelayAck, RecordTargetReceipt, RecordReceiptAck, PutRelayReceipt, Prune, Rollback;
    match op {
      case ReserveOp(id, hash) => ReserveCalm(db, limits, id, hash);
      case BeginOp(logical, targets, audiences, expiresAt, at) => BeginCalm(db, logical, targets, audiences, expiresAt, at);
      case CommitOp(id, hash, prepared, at, announcement, link) => CommitCalm(db, member, limits, id, hash, prepared, at, announcement, link);
      case AnnounceOp(m, at) => AnnounceCalm(db, limits, m, at);
      case AnnounceAuthenticatedOp(a, roster, at) => AnnounceAuthenticatedCalm(db, limits, a, roster, at);
      case PutChunkOp(id, index, bytes, at, relay) => PutChunkCalm(db, member, id, index, bytes, at, relay);
      case StageChunkOp(id, index, bytes, at) => StageChunkCalm(db, id, index, bytes, at);
      case FinalizeOp(delivery, roster, key, signature, at) => FinalizeCalm(db, member, delivery, roster, key, signature, at);
      case OriginAckOp(id, actor, envelope, roster, key, signature, at, oracle) =>
        OriginAckCalm(db, member, id, actor, envelope, roster, key, signature, at, oracle);
      case PutRelayAckOp(ack, frame, from, at) => RelayAckCalm(db, member, limits, ack, frame, from, at);
      case _ =>
    }
  }

  // ----- signatures and evidence -----

  function Last(run: seq<Net>): Net
    requires |run| > 0
  {
    run[|run| - 1]
  }

  /** The member's store holds its own committed delivery of the receipt's object, with this receipt. */
  predicate CommittedBy(net: Net, r: Receipt) {
    && r.actor in net.stores
    && ReceiptFrom(net.stores[r.actor], r.objectId).Some?
    && ReceiptFrom(net.stores[r.actor], r.objectId).value.receipt == r
  }

  /** The origin's store holds the receipt of that target. */
  predicate RecordedBy(net: Net, id: ObjectId, actor: MemberId, receiptId: ReceiptId) {
    && id.manifest.origin in net.stores
    && (id, actor) in net.stores[id.manifest.origin].targetReceipts
    && ReceiptId(net.stores[id.manifest.origin].targetReceipts[(id, actor)]) == receiptId
  }

  ghost predicate EverCommitted(run: seq<Net>, r: Receipt) {
    exists i :: 0 <= i < |run| && CommittedBy(run[i], r)
  }

  ghost predicate EverRecorded(run: seq<Net>, id: ObjectId, actor: MemberId, receiptId: ReceiptId) {
    exists i :: 0 <= i < |run| && RecordedBy(run[i], id, actor, receiptId)
  }

  /** What one store knows about other members comes from signatures. */
  ghost predicate Evidence(oracle: Oracle, member: MemberId, db: Db) {
    && (forall k :: k in db.targetReceipts ==> db.targetReceipts[k] in oracle.receipts)
    && (forall id :: id in db.acknowledged ==> Answered(oracle, id, member, db.acknowledged[id].receiptId))
  }

  ghost predicate Answered(oracle: Oracle, id: ObjectId, actor: MemberId, receiptId: ReceiptId) {
    exists ack :: ack in oracle.acks && ack.objectId == id && ack.actor == actor && ack.receiptId == receiptId
  }

  ghost predicate NetInv(net: Net) {
    && (forall m :: m in net.stores ==> Inv(m, net.stores[m]))
    && (forall m :: m in net.stores ==> Evidence(net.oracle, m, net.stores[m]))
  }

  /** Every signature was made by a member that had committed what it signs. */
  ghost predicate Witnessed(run: seq<Net>, oracle: Oracle) {
    && (forall r :: r in oracle.receipts ==> EverCommitted(run, r))
    && (forall k :: k in oracle.acks ==>
          && EverRecorded(run, k.objectId, k.actor, k.receiptId)
          && k.receiptId.receipt.objectId == k.objectId && k.receiptId.receipt.actor == k.actor)
  }

  lemma MoreRun(run: seq<Net>, next: Net, oracle: Oracle)
    requires Witnessed(run, oracle)
    ensures Witnessed(run + [next], oracle)
  {
    hide CommittedBy, RecordedBy;
    var longer := run + [next];
    forall r | r in oracle.receipts ensures EverCommitted(longer, r) {
      var i :| 0 <= i < |run| && CommittedBy(run[i], r);
      assert CommittedBy(longer[i], r);
    }
    forall k | k in oracle.acks ensures EverRecorded(longer, k.objectId, k.actor, k.receiptId) {
      var i :| 0 <= i < |run| && RecordedBy(run[i], k.objectId, k.actor, k.receiptId);
      assert RecordedBy(longer[i], k.objectId, k.actor, k.receiptId);
    }
  }

  /** A verified receipt or acknowledgement is one its named signer signed. */
  predicate Trusted(oracle: Oracle, op: Op) {
    match op
    case RecordReceiptOp(proof, _, _) => proof.receipt in oracle.receipts
    case RecordAckOp(ack, _, _) => ack in oracle.acks
    case _ => true
  }

  lemma TransactionsTrusted(db: Db, member: MemberId, limits: Limits, oracle: Oracle, action: Action)
    ensures forall op :: op in Transactions(db, member, limits, oracle, action) ==> Trusted(oracle, op)
  {
    hide PreparedObject.Valid, Manifest.Valid, StoredAnnouncement, ChunkError, PutRelayAck, VerifyReceived, Deliverable,
      Authenticated.ValidateRoster, Roster.ValidateAt, AuthenticateAnnouncement, WellFormed;
  }

  lemma RecordReceiptEvidence(db: Db, member: MemberId, oracle: Oracle, proof: VerifiedReceipt, roster: Roster, at: nat)
    requires Evidence(oracle, member, db) && proof.receipt in oracle.receipts
    ensures Evidence(oracle, member, After(db, RecordTargetReceipt(db, member, proof, roster, at)))
  {
    hide Answered, ProgressFrom, VerifiedReceipt.ValidateCommit, Committed;
    var o := RecordTargetReceipt(db, member, proof, roster, at);
    if o.Done? {
      var receipts := InsertOrIgnore(db.targetReceipts, (proof.receipt.objectId, proof.receipt.actor), proof.receipt);
      assert o.db == db.(targetReceipts := receipts, outbox := o.db.outbox);
    }
  }

  lemma RecordAckEvidence(db: Db, member: MemberId, oracle: Oracle, ack: Ack, roster: Roster, at: nat)
    requires Evidence(oracle, member, db) && ack in oracle.acks
    ensures Evidence(oracle, member, After(db, RecordReceiptAck(db, member, ack, roster, at)))
  {
    hide Roster.ValidateAt;
    var o := RecordReceiptAck(db, member, ack, roster, at);
    if o.Done? {
      assert Answered(oracle, ack.objectId, member, ack.receiptId);
      hide Answered;
      assert o.db == db.(acknowledged := InsertOrIgnore(db.acknowledged, ack.objectId, Acknowledged(ack.receiptId, ack.at)));
    }
  }

  lemma FewerEvidence(oracle: Oracle, member: MemberId, db: Db, db': Db)
    requires Evidence(oracle, member, db) && SubMap(db'.targetReceipts, db.targetReceipts) && SubMap(db'.acknowledged, db.acknowledged)
    ensures Evidence(oracle, member, db')
  {
    hide Answered;
  }

  /** Deletion drops rows and changes none. */
  lemma DeleteSubMap(db: Db, ids: set<ObjectId>)
    ensures SubMap(DeleteObjects(db, ids).targetReceipts, db.targetReceipts)
    ensures SubMap(DeleteObjects(db, ids).acknowledged, db.acknowledged)
  {
  }

  lemma DeletionEvidence(db: Db, now: nat, logical: LogicalId)
    ensures SubMap(After(db, Prune(db, now)).targetReceipts, db.targetReceipts)
    ensures SubMap(After(db, Prune(db, now)).acknowledged, db.acknowledged)
    ensures SubMap(Rollback(db, logical).targetReceipts, db.targetReceipts)
    ensures SubMap(Rollback(db, logical).acknowledged, db.acknowledged)
  {
    hide DeleteObjects, StaleLogical, HasLinks, ExpiredObjects, Unexpired;
    DeleteSubMap(db, ExpiredObjects(db, now));
    DeleteSubMap(db, LinkedTo(db, logical).Keys);
    DeleteSubMap(db, {});
  }

  lemma OpEvidence(member: MemberId, limits: Limits, db: Db, oracle: Oracle, op: Op)
    requires Evidence(oracle, member, db) && Trusted(oracle, op)
    ensures Evidence(oracle, member, Apply(member, limits, db, op))
  {
    hide Evidence, After, RecordTargetReceipt, RecordReceiptAck, PutRelayReceipt, Prune, Rollback, Reserve, BeginLogical, CommitOutgoing,
      Announce, AnnounceAuthenticated, PutChunk, StageChunk,
      FinalizeReceived, OriginReceiptAck, PutRelayAck;
    if CalmOp(op) {
      hide Apply;
      CalmOps(member, limits, db, op);
      FewerEvidence(oracle, member, db, Apply(member, limits, db, op));
    } else {
      match op {
        case RecordReceiptOp(proof, roster, at) => RecordReceiptEvidence(db, member, oracle, proof, roster, at);
        case RecordAckOp(ack, roster, at) => RecordAckEvidence(db, member, oracle, ack, roster, at);
        case PruneOp(at) => DeletionEvidence(db, at, 0); FewerEvidence(oracle, member, db, After(db, Prune(db, at)));
        case RollbackOp(logical) => DeletionEvidence(db, 0, logical); FewerEvidence(oracle, member, db, Rollback(db, logical));
        case RemoveRelayReceiptOp(id) => FewerEvidence(oracle, member, db, RemoveRelayReceipt(db, id));
        case PutRelayReceiptOp(receipt, frame, from, at) =>
          RelayReceiptEvidence(db, member, limits, receipt, frame, from, at);
          FewerEvidence(oracle, member, db, After(db, PutRelayReceipt(db, member, limits, receipt, frame, from, at)));
      }
    }
  }

  lemma RelayReceiptEvidence(db: Db, member: MemberId, limits: Limits, receipt: Receipt, frame: RelayFrame, from: MemberId, at: nat)
    ensures
      var db' := After(db, PutRelayReceipt(db, member, limits, receipt, frame, from, at));
      db'.targetReceipts == db.targetReceipts && db'.acknowledged == db.acknowledged && db'.outbox == db.outbox
  {
    hide Retain;
  }

  lemma {:induction false} RunEvidence(member: MemberId, limits: Limits, db: Db, oracle: Oracle, ops: seq<Op>)
    requires Evidence(oracle, member, db) && forall op :: op in ops ==> Trusted(oracle, op)
    ensures Evidence(oracle, member, Run(member, limits, db, ops))
    decreases |ops|
  {
    hide Evidence, Trusted, Apply;
    if ops != [] {
      OpEvidence(member, limits, db, oracle, ops[0]);
      RunEvidence(member, limits, Apply(member, limits, db, ops[0]), oracle, ops[1..]);
    }
  }

  lemma MoreEvidence(oracle: Oracle, oracle': Oracle, member: MemberId, db: Db)
    requires Evidence(oracle, member, db) && oracle.receipts <= oracle'.receipts && oracle.acks <= oracle'.acks
    ensures Evidence(oracle', member, db)
  {
    forall id | id in db.acknowledged ensures Answered(oracle', id, member, db.acknowledged[id].receiptId) {
      assert Answered(oracle, id, member, db.acknowledged[id].receiptId);
    }
  }

  // ----- one step -----

  /** What a finalize call signs is in the store it leaves. */
  lemma FinalizeHolds(db: Db, member: MemberId, proof: VerifiedDelivery, roster: Roster, key: nat, signature: nat, at: nat)
    requires Inv(member, db) && FinalizeReceived(db, member, proof, roster, key, signature, at).Done?
    ensures
      var o := FinalizeReceived(db, member, proof, roster, key, signature, at);
      && ReceiptFrom(o.db, o.value.receipt.objectId) == Some(o.value) && o.value.receipt.actor == member
  {
    hide ObjectsOk, ChunksOk, CompleteOk, ModesOk, RelayOk, OperationsOk, ReceiptsOk, OutboxOk, LinksOk,
      Completed, ChunkError, Authenticated.ValidateRoster, VerifiedDelivery.ValidateCommit;
  }

  /** What an origin acknowledges is a receipt it holds. */
  lemma OriginAckHolds(db: Db, member: MemberId, id: ObjectId, actor: MemberId, envelope: Result<Envelope, DurableError>,
    roster: Roster, key: nat, signature: nat, at: nat, oracle: Oracle)
    requires Inv(member, db) && OriginReceiptAck(db, member, id, actor, envelope, roster, key, signature, at, oracle).Done?
    ensures
      var o := OriginReceiptAck(db, member, id, actor, envelope, roster, key, signature, at, oracle);
      && o.value.objectId == id && o.value.actor == actor && (id, actor) in o.db.targetReceipts
      && o.value.receiptId == ReceiptId(o.db.targetReceipts[(id, actor)]) && id.manifest.origin == member
      && o.value.receiptId.receipt.objectId == id && o.value.receiptId.receipt.actor == actor
  {
    hide ObjectsOk, ChunksOk, CompleteOk, ModesOk, RelayOk, DeliveriesOk, OutboxOk, LinksOk, VerifyTargetReceipt, VerifyAck,
      Roster.ValidateAt, Committed, OperationsOk;
    assert Committed(db.operations, id);
    CommittedIsOwn(member, db, id);
  }

  lemma CommittedIsOwn(member: MemberId, db: Db, id: ObjectId)
    requires Inv(member, db) && Committed(db.operations, id)
    ensures id.manifest.origin == member && id in db.objects
  {
    hide ObjectsOk, ChunksOk, CompleteOk, ModesOk, RelayOk, DeliveriesOk, OutboxOk, LinksOk, ReceiptsOk;
  }

  lemma OracleGrows(db: Db, member: MemberId, limits: Limits, oracle: Oracle, action: Action)
    ensures
      var oracle' := Signed(db, member, limits, oracle, action);
      oracle.receipts <= oracle'.receipts && oracle.acks <= oracle'.acks
  {
    hide Transactions, FinalizeReceived, OriginReceiptAck;
  }

  /** A store after one transaction. */
  lemma RunOne(member: MemberId, limits: Limits, db: Db, op: Op)
    ensures Run(member, limits, db, [op]) == Apply(member, limits, db, op)
  {
    hide Apply;
    assert [op][1..] == [];
  }

  lemma StepNetInv(limits: Limits, net: Net, who: MemberId, action: Action)
    requires NetInv(net) && who in net.stores
    ensures NetInv(Step(limits, net, who, action))
  {
    hide Inv, Evidence, Transactions, Signed, Run, AllWellFormed, Trusted;
    var db, net' := net.stores[who], Step(limits, net, who, action);
    var ops := Transactions(db, who, limits, net.oracle, action);
    TransactionsWellFormed(db, who, limits, net.oracle, action);
    RunKeeps(who, limits, db, ops);
    TransactionsTrusted(db, who, limits, net.oracle, action);
    RunEvidence(who, limits, db, net.oracle, ops);
    OracleGrows(db, who, limits, net.oracle, action);
    forall m | m in net'.stores ensures Evidence(net'.oracle, m, net'.stores[m]) {
      MoreEvidence(net.oracle, net'.oracle, m, net'.stores[m]);
    }
  }

  /** Whoever signs in a step has already stored what the signature stands for. */
  lemma StepWitnessed(limits: Limits, run: seq<Net>, net: Net, who: MemberId, action: Action)
    requires NetInv(net) && who in net.stores && Witnessed(run, net.oracle)
    ensures var net' := Step(limits, net, who, action); Witnessed(run + [net'], net'.oracle)
  {
    hide Inv, Evidence, Run, CommittedBy, RecordedBy, Apply, FinalizeReceived, OriginReceiptAck, VerifyReceived, Deliverable,
      AcceptRouted, HostOp, Authenticated.ValidateRoster, PreparedObject.Valid;
    var db, net' := net.stores[who], Step(limits, net, who, action);
    var ops := Transactions(db, who, limits, net.oracle, action);
    MoreRun(run, net', net.oracle);
    match action {
      case FinalizeText(_, _, _, _, _, _, _) =>
        if ops != [] {
          RunOne(who, limits, db, ops[0]);
          FinalizeWitness(limits, net, who, action, net');
          hide Transactions, Signed;
          NewReceipt(run, net', net.oracle, net'.oracle);
        }
      case DrainAck(_, _, _, _, _, _, _) =>
        RunOne(who, limits, db, ops[0]);
        DrainWitness(limits, net, who, action, net');
        hide Transactions, Signed;
        NewAck(run, net', net.oracle, net'.oracle);
      case _ =>
    }
  }

  lemma NewReceipt(run: seq<Net>, net': Net, oracle: Oracle, oracle': Oracle)
    requires Witnessed(run + [net'], oracle) && oracle'.acks == oracle.acks
    requires forall r :: r in oracle'.receipts ==> r in oracle.receipts || CommittedBy(net', r)
    ensures Witnessed(run + [net'], oracle')
  {
    hide CommittedBy, RecordedBy, EverRecorded;
    forall r | r in oracle'.receipts ensures EverCommitted(run + [net'], r) {
      if r !in oracle.receipts { assert CommittedBy((run + [net'])[|run|], r); }
    }
  }

  predicate AckWitness(net: Net, k: Ack) {
    && RecordedBy(net, k.objectId, k.actor, k.receiptId)
    && k.receiptId.receipt.objectId == k.objectId && k.receiptId.receipt.actor == k.actor
  }

  lemma NewAck(run: seq<Net>, net': Net, oracle: Oracle, oracle': Oracle)
    requires Witnessed(run + [net'], oracle) && oracle'.receipts == oracle.receipts
    requires forall k :: k in oracle'.acks ==> k in oracle.acks || AckWitness(net', k)
    ensures Witnessed(run + [net'], oracle')
  {
    hide CommittedBy, RecordedBy, EverCommitted;
    forall k | k in oracle'.acks ensures EverRecorded(run + [net'], k.objectId, k.actor, k.receiptId) {
      if k !in oracle.acks { assert RecordedBy((run + [net'])[|run|], k.objectId, k.actor, k.receiptId); }
    }
  }

  lemma FinalizeWitness(limits: Limits, net: Net, who: MemberId, action: Action, net': Net)
    requires NetInv(net) && who in net.stores && action.FinalizeText? && net' == Step(limits, net, who, action)
    requires var ops := Transactions(net.stores[who], who, limits, net.oracle, action);
      ops != [] && net'.stores[who] == Apply(who, limits, net.stores[who], ops[0])
    ensures net'.oracle.acks == net.oracle.acks
    ensures forall r :: r in net'.oracle.receipts ==> r in net.oracle.receipts || CommittedBy(net', r)
  {
    hide Inv, Evidence, Run, FinalizeReceived, VerifyReceived, Deliverable, ReceiptFrom;
    var db := net.stores[who];
    var op := Transactions(db, who, limits, net.oracle, action)[0];
    var o := FinalizeReceived(db, who, op.delivery, op.roster, op.signerKey, op.signature, op.at);
    if o.Done? {
      FinalizeHolds(db, who, op.delivery, op.roster, op.signerKey, op.signature, op.at);
      assert CommittedBy(net', o.value.receipt);
    }
  }

  lemma DrainWitness(limits: Limits, net: Net, who: MemberId, action: Action, net': Net)
    requires NetInv(net) && who in net.stores && action.DrainAck? && net' == Step(limits, net, who, action)
    requires net'.stores[who] == Apply(who, limits, net.stores[who], Transactions(net.stores[who], who, limits, net.oracle, action)[0])
    ensures net'.oracle.receipts == net.oracle.receipts
    ensures forall k :: k in net'.oracle.acks ==> k in net.oracle.acks || AckWitness(net', k)
  {
    hide Inv, Evidence, Run, OriginReceiptAck;
    var db := net.stores[who];
    var o := OriginReceiptAck(db, who, action.id, action.actor, action.envelope, action.roster, action.signerKey, action.signature,
                              action.at, net.oracle);
    if o.Done? {
      OriginAckHolds(db, who, action.id, action.actor, action.envelope, action.roster, action.signerKey, action.signature, action.at,
                     net.oracle);
    }
  }

  lemma InitialSafe(net: Net)
    requires Initial(net)
    ensures NetInv(net) && Witnessed([net], net.oracle)
  {
    hide Inv;
    forall m | m in net.stores ensures Inv(m, net.stores[m]) { EmptyInv(m); }
  }

  lemma {:induction false} RunSafe(limits: Limits, run: seq<Net>)
    requires IsRun(limits, run)
    ensures NetInv(Last(run)) && Witnessed(run, Last(run).oracle)
    decreases |run|
  {
    hide NetInv, Witnessed, Step;
    var last := |run| - 1;
    if last == 0 {
      InitialSafe(run[0]);
      assert run == [run[0]];
    } else {
      var prefix := run[..last];
      RunSafe(limits, prefix);
      assert Next(limits, run[last - 1], run[last]);
      var who, action :| who in run[last - 1].stores && run[last] == Step(limits, run[last - 1], who, action);
      StepNetInv(limits, run[last - 1], who, action);
      StepWitnessed(limits, prefix, run[last - 1], who, action);
      assert run == prefix + [run[last]];
    }
  }

  // ----- the theorems -----

  /** An origin holds a receipt of a target only if that target's store had committed its delivery, with this very receipt. */
  lemma ReceiptsAreCommitted(limits: Limits, run: seq<Net>, origin: MemberId, id: ObjectId, actor: MemberId)
    requires IsRun(limits, run)
    requires origin in Last(run).stores && (id, actor) in Last(run).stores[origin].targetReceipts
    ensures
      var r := Last(run).stores[origin].targetReceipts[(id, actor)];
      r.objectId == id && r.actor == actor && EverCommitted(run, r)
  {
    hide Initial, Next, ObjectsOk, ChunksOk, CompleteOk, ModesOk, RelayOk, DeliveriesOk, OperationsOk, OutboxOk, LinksOk, EverCommitted, EverRecorded;
    RunSafe(limits, run);
    var net := Last(run);
    assert Evidence(net.oracle, origin, net.stores[origin]);
    assert net.stores[origin].targetReceipts[(id, actor)] in net.oracle.receipts;
  }

  ghost predicate TargetCommitted(run: seq<Net>, id: ObjectId, actor: MemberId) {
    exists r: Receipt :: r.objectId == id && r.actor == actor && EverCommitted(run, r)
  }

  lemma ConfirmedCommitted(limits: Limits, run: seq<Net>, origin: MemberId, id: ObjectId)
    requires IsRun(limits, run) && origin in Last(run).stores
    requires AllConfirmed(id, Last(run).stores[origin].targetReceipts)
    ensures forall t :: t in id.manifest.targets ==> TargetCommitted(run, id, t)
  {
    hide Initial, Next, EverCommitted;
    forall t | t in id.manifest.targets ensures TargetCommitted(run, id, t) {
      ReceiptsAreCommitted(limits, run, origin, id, t);
      var r := Last(run).stores[origin].targetReceipts[(id, t)];
      assert r.objectId == id && r.actor == t && EverCommitted(run, r);
    }
  }

  /** How one transaction can take an object out of the outbox. */
  ghost predicate RetiredBy(op: Op, db: Db, db': Db, id: ObjectId) {
    || AllConfirmed(id, db'.targetReceipts)
    || (op.PruneOp? && id.manifest.expiresAt <= op.at)
    || (op.RollbackOp? && id in LinkedTo(db, op.logical))
  }

  lemma OpRetires(member: MemberId, limits: Limits, db: Db, op: Op, id: ObjectId)
    requires Inv(member, db) && id in db.outbox && id !in Apply(member, limits, db, op).outbox
    ensures RetiredBy(op, db, Apply(member, limits, db, op), id)
  {
    hide Inv, After, RecordTargetReceipt, RecordReceiptAck, PutRelayReceipt, Prune, Rollback, AllConfirmed, Reserve, BeginLogical, CommitOutgoing,
      Announce, AnnounceAuthenticated, PutChunk, StageChunk,
      FinalizeReceived, OriginReceiptAck, PutRelayAck;
    if CalmOp(op) {
      hide Apply;
      CalmOps(member, limits, db, op);
    } else {
      match op {
        case RecordReceiptOp(proof, roster, at) => RecordRetires(member, db, proof, roster, at, id);
        case RecordAckOp(ack, roster, at) => RecordAckOutbox(db, member, ack, roster, at);
        case PruneOp(at) => PruneRetires(member, db, at, id);
        case RollbackOp(logical) => RollbackRetires(db, logical, id);
        case RemoveRelayReceiptOp(_) =>
        case PutRelayReceiptOp(receipt, frame, from, at) => RelayReceiptEvidence(db, member, limits, receipt, frame, from, at);
      }
    }
  }

  lemma RecordRetires(member: MemberId, db: Db, proof: VerifiedReceipt, roster: Roster, at: nat, id: ObjectId)
    requires Inv(member, db) && id in db.outbox && id !in After(db, RecordTargetReceipt(db, member, proof, roster, at)).outbox
    ensures AllConfirmed(id, After(db, RecordTargetReceipt(db, member, proof, roster, at)).targetReceipts)
  {
    hide ObjectsOk, ChunksOk, CompleteOk, ModesOk, RelayOk, DeliveriesOk, OperationsOk, LinksOk, Committed, AllConfirmed;
    RecordTargetKeeps(member, db, proof, roster, at);
    var o := RecordTargetReceipt(db, member, proof, roster, at);
    RecordTables(db, member, proof, roster, at);
  }

  lemma RecordTables(db: Db, member: MemberId, proof: VerifiedReceipt, roster: Roster, at: nat)
    requires RecordTargetReceipt(db, member, proof, roster, at).Done?
    ensures
      var db' := RecordTargetReceipt(db, member, proof, roster, at).db;
      db' == db.(targetReceipts := db'.targetReceipts, outbox := db'.outbox)
  {
    hide ProgressFrom, VerifiedReceipt.ValidateCommit, Committed, InsertOrIgnore;
  }

  lemma RecordAckOutbox(db: Db, member: MemberId, ack: Ack, roster: Roster, at: nat)
    ensures
      var db' := After(db, RecordReceiptAck(db, member, ack, roster, at));
      db'.outbox == db.outbox && db'.targetReceipts == db.targetReceipts && db'.relayReceipts == db.relayReceipts
  {
    hide Roster.ValidateAt, InsertOrIgnore;
    var o := RecordReceiptAck(db, member, ack, roster, at);
    if o.Done? { assert o.db == db.(acknowledged := o.db.acknowledged); }
  }

  lemma PruneOutbox(db: Db, now: nat)
    ensures Prune(db, now).Done? ==> Prune(db, now).db.outbox == db.outbox - ExpiredObjects(db, now)
    ensures Prune(db, now).Done? ==> Prune(db, now).db.relayReceipts == Unexpired(db.relayReceipts, now)
  {
    hide StaleLogical, HasLinks, ExpiredObjects, Unexpired;
  }

  lemma PruneRetires(member: MemberId, db: Db, now: nat, id: ObjectId)
    requires Inv(member, db) && id in db.outbox && id !in After(db, Prune(db, now)).outbox
    ensures id.manifest.expiresAt <= now
  {
    hide Inv, Prune;
    PruneOutbox(db, now);
    RowOf(member, db, id);
  }

  lemma RollbackRetires(db: Db, logical: LogicalId, id: ObjectId)
    requires id in db.outbox && id !in Rollback(db, logical).outbox
    ensures id in LinkedTo(db, logical)
  {
    hide LinkRows;
  }

  /** A call is at most one transaction that concerns the outbox. */
  lemma TransactionsShape(db: Db, member: MemberId, limits: Limits, oracle: Oracle, action: Action)
    ensures
      var ops := Transactions(db, member, limits, oracle, action);
      || |ops| <= 1
      || (|ops| == 2 && ops[0].PutRelayAckOp? && ops[1].RemoveRelayReceiptOp? && action.Accept? && action.record.AckRecord?
          && ops[1].receiptId == action.record.ack.receiptId && action.record.ack in oracle.acks)
  {
    hide PreparedObject.Valid, Manifest.Valid, VerifyTargetReceipt, PutRelayAck, VerifyReceived, Deliverable,
      Authenticated.ValidateRoster, Roster.ValidateAt, AuthenticateAnnouncement, HostOp;
  }

  lemma RunTwo(member: MemberId, limits: Limits, db: Db, ops: seq<Op>)
    requires |ops| == 2
    ensures Run(member, limits, db, ops) == Apply(member, limits, Apply(member, limits, db, ops[0]), ops[1])
  {
    hide Apply;
    assert ops[1..] == [ops[1]];
    RunOne(member, limits, Apply(member, limits, db, ops[0]), ops[1]);
  }

  lemma NextSafe(limits: Limits, run: seq<Net>, who: MemberId, action: Action)
    requires IsRun(limits, run) && who in Last(run).stores
    ensures IsRun(limits, run + [Step(limits, Last(run), who, action)])
  {
    hide Step, Initial;
    var longer := run + [Step(limits, Last(run), who, action)];
    forall i | 0 <= i < |longer| - 1 ensures Next(limits, longer[i], longer[i + 1]) {
      if i < |run| - 1 { assert Next(limits, run[i], run[i + 1]); }
    }
  }

  /**
   * An object leaves its origin's outbox only when every one of its targets had committed its delivery,
   * or it expired, or the message it belongs to was rolled back.
   */
  lemma OutboxRetires(limits: Limits, run: seq<Net>, who: MemberId, action: Action, id: ObjectId)
    requires IsRun(limits, run) && who in Last(run).stores
    requires id in Last(run).stores[who].outbox
    requires id !in Step(limits, Last(run), who, action).stores[who].outbox
    ensures
      || (action.Host? && action.op.PruneOp? && id.manifest.expiresAt <= action.op.at)
      || (action.Host? && action.op.RollbackOp? && id in LinkedTo(Last(run).stores[who], action.op.logical))
      || (forall t :: t in id.manifest.targets ==> TargetCommitted(run + [Step(limits, Last(run), who, action)], id, t))
  {
    hide Initial, Next, Inv, Evidence, Transactions, Signed, AllConfirmed, Apply, Witnessed, LinkedTo, TargetCommitted, Run;
    RunSafe(limits, run);
    NextSafe(limits, run, who, action);
    var net := Last(run);
    var db, net' := net.stores[who], Step(limits, net, who, action);
    var ops := Transactions(db, who, limits, net.oracle, action);
    StoreRetires(who, limits, db, net.oracle, action, id);
    if AllConfirmed(id, net'.stores[who].targetReceipts) {
      ConfirmedCommitted(limits, run + [net'], who, id);
    }
  }

  lemma StoreRetires(member: MemberId, limits: Limits, db: Db, oracle: Oracle, action: Action, id: ObjectId)
    requires Inv(member, db) && id in db.outbox
    requires id !in Run(member, limits, db, Transactions(db, member, limits, oracle, action)).outbox
    ensures
      || (action.Host? && action.op.PruneOp? && id.manifest.expiresAt <= action.op.at)
      || (action.Host? && action.op.RollbackOp? && id in LinkedTo(db, action.op.logical))
      || AllConfirmed(id, Run(member, limits, db, Transactions(db, member, limits, oracle, action)).targetReceipts)
  {
    hide Inv, Transactions, Apply, AllConfirmed, LinkedTo;
    var ops := Transactions(db, member, limits, oracle, action);
    TransactionsShape(db, member, limits, oracle, action);
    if |ops| == 1 {
      assert ops == [ops[0]];
      RunOne(member, limits, db, ops[0]);
      OpRetires(member, limits, db, ops[0], id);
      HostDeletes(db, member, limits, oracle, action);
    } else if |ops| == 2 {
      RunTwo(member, limits, db, ops);
      CalmOps(member, limits, db, ops[0]);
      RemoveOutbox(member, limits, Apply(member, limits, db, ops[0]), ops[1]);
    }
  }

  lemma RemoveOutbox(member: MemberId, limits: Limits, db: Db, op: Op)
    requires op.RemoveRelayReceiptOp?
    ensures Apply(member, limits, db, op).outbox == db.outbox
    ensures Apply(member, limits, db, op).relayReceipts == db.relayReceipts - {op.receiptId}
  {
  }

  /** Only the host prunes and rolls back. */
  lemma HostDeletes(db: Db, member: MemberId, limits: Limits, oracle: Oracle, action: Action)
    requires |Transactions(db, member, limits, oracle, action)| == 1
    ensures
      var op := Transactions(db, member, limits, oracle, action)[0];
      && (op.PruneOp? || op.RollbackOp? ==> action == Host(op))
      && (op.PutRelayReceiptOp? ==> action.Accept? && op.at == action.at)
      && !op.RemoveRelayReceiptOp?
  {
    hide PreparedObject.Valid, Manifest.Valid, VerifyTargetReceipt, PutRelayAck, VerifyReceived, Deliverable,
      Authenticated.ValidateRoster, VerifyAck, AuthenticateAnnouncement, WellFormed;
  }

  /** A recipient's receipt counts as acknowledged only after the object's origin recorded exactly that receipt. */
  lemma AcknowledgedIsRecorded(limits: Limits, run: seq<Net>, actor: MemberId, id: ObjectId)
    requires IsRun(limits, run) && actor in Last(run).stores && id in Last(run).stores[actor].acknowledged
    ensures
      var db := Last(run).stores[actor];
      && ReceiptFrom(db, id).Some?
      && EverRecorded(run, id, actor, ReceiptId(ReceiptFrom(db, id).value.receipt))
  {
    hide Initial, Next, ObjectsOk, ChunksOk, CompleteOk, ModesOk, RelayOk, OperationsOk, ReceiptsOk, OutboxOk, LinksOk, EverCommitted, EverRecorded;
    RunSafe(limits, run);
    var net := Last(run);
    assert Evidence(net.oracle, actor, net.stores[actor]);
    var receiptId := net.stores[actor].acknowledged[id].receiptId;
    var ack :| ack in net.oracle.acks && ack.objectId == id && ack.actor == actor && ack.receiptId == receiptId;
    assert EverRecorded(run, ack.objectId, ack.actor, ack.receiptId);
  }

  /** The receipts a recipient still retries. */
  function LocalReceiptOutbox(db: Db, member: MemberId, now: nat): set<ObjectId> {
    set id | id in db.localDeliveries && id in db.deliveries && id !in db.acknowledged && id in db.objects
      && db.objects[id].manifest.origin != member && db.objects[id].manifest.expiresAt > now
  }

  /** A recipient stops retrying an unexpired receipt only after the origin recorded it. */
  lemma RetryStopsAfterRecording(limits: Limits, run: seq<Net>, actor: MemberId, id: ObjectId, now: nat)
    requires IsRun(limits, run) && actor in Last(run).stores
    requires ReceiptFrom(Last(run).stores[actor], id).Some? && id.manifest.origin != actor && now < id.manifest.expiresAt
    requires id !in LocalReceiptOutbox(Last(run).stores[actor], actor, now)
    ensures EverRecorded(run, id, actor, ReceiptId(ReceiptFrom(Last(run).stores[actor], id).value.receipt))
  {
    hide Initial, Next, Evidence, EverRecorded, ChunksOk, CompleteOk, RelayOk, OperationsOk, ReceiptsOk, OutboxOk, LinksOk,
      Witnessed, ModesOk, ObjectsOk;
    RunSafe(limits, run);
    assert Inv(actor, Last(run).stores[actor]);
    RowOf(actor, Last(run).stores[actor], id);
    AcknowledgedIsRecorded(limits, run, actor, id);
  }

  /** Relay custody of a receipt ends with its expiry, or after the origin recorded the receipt. */
  lemma RelayReceiptRetires(limits: Limits, run: seq<Net>, who: MemberId, action: Action, id: ReceiptId)
    requires IsRun(limits, run) && who in Last(run).stores
    requires id in Last(run).stores[who].relayReceipts
    requires id !in Step(limits, Last(run), who, action).stores[who].relayReceipts
    ensures
      var expires := Last(run).stores[who].relayReceipts[id].frame.expiresAt;
      || (action.Host? && action.op.PruneOp? && expires <= action.op.at)
      || (action.Accept? && expires <= action.at)
      || EverRecorded(run, id.receipt.objectId, id.receipt.actor, id)
  {
    hide Initial, Next, Inv, Evidence, Transactions, Signed, Apply, EverCommitted, EverRecorded, Run;
    RunSafe(limits, run);
    var net := Last(run);
    StoreDrops(who, limits, net.stores[who], net.oracle, action, id);
  }

  lemma StoreDrops(member: MemberId, limits: Limits, db: Db, oracle: Oracle, action: Action, id: ReceiptId)
    requires id in db.relayReceipts
    requires id !in Run(member, limits, db, Transactions(db, member, limits, oracle, action)).relayReceipts
    ensures
      var expires := db.relayReceipts[id].frame.expiresAt;
      || (action.Host? && action.op.PruneOp? && expires <= action.op.at)
      || (action.Accept? && expires <= action.at)
      || exists ack :: ack in oracle.acks && ack.receiptId == id
  {
    hide Transactions, Apply;
    var ops := Transactions(db, member, limits, oracle, action);
    TransactionsShape(db, member, limits, oracle, action);
    if |ops| == 1 {
      assert ops == [ops[0]];
      RunOne(member, limits, db, ops[0]);
      HostDeletes(db, member, limits, oracle, action);
      OpDrops(member, limits, db, ops[0], id);
    } else if |ops| == 2 {
      RunTwo(member, limits, db, ops);
      CalmOps(member, limits, db, ops[0]);
      RemoveOutbox(member, limits, Apply(member, limits, db, ops[0]), ops[1]);
    }
  }

  lemma OpDrops(member: MemberId, limits: Limits, db: Db, op: Op, id: ReceiptId)
    requires id in db.relayReceipts && id !in Apply(member, limits, db, op).relayReceipts && !op.RemoveRelayReceiptOp?
    ensures (op.PruneOp? || op.PutRelayReceiptOp?) && db.relayReceipts[id].frame.expiresAt <= op.at
  {
    hide After, RecordTargetReceipt, RecordReceiptAck, PutRelayReceipt, Prune, Rollback, Reserve, BeginLogical, CommitOutgoing,
      Announce, AnnounceAuthenticated, PutChunk, StageChunk,
      FinalizeReceived, OriginReceiptAck, PutRelayAck;
    if CalmOp(op) {
      hide Apply;
      CalmOps(member, limits, db, op);
    } else {
      match op {
        case RecordReceiptOp(proof, roster, at) =>
          RecordReceiptRelays(db, member, proof, roster, at);
        case RecordAckOp(ack, roster, at) => RecordAckOutbox(db, member, ack, roster, at);
        case PruneOp(at) => PruneDrops(db, at, id);
        case RollbackOp(logical) => RollbackRelays(db, logical);
        case PutRelayReceiptOp(receipt, frame, from, at) => PutDrops(db, member, limits, receipt, frame, from, at, id);
      }
    }
  }

  lemma RecordReceiptRelays(db: Db, member: MemberId, proof: VerifiedReceipt, roster: Roster, at: nat)
    ensures After(db, RecordTargetReceipt(db, member, proof, roster, at)).relayReceipts == db.relayReceipts
  {
    hide RecordTargetReceipt;
    if RecordTargetReceipt(db, member, proof, roster, at).Done? { RecordTables(db, member, proof, roster, at); }
  }

  lemma PruneDrops(db: Db, now: nat, id: ReceiptId)
    requires id in db.relayReceipts && id !in After(db, Prune(db, now)).relayReceipts
    ensures db.relayReceipts[id].frame.expiresAt <= now
  {
    hide Prune;
    PruneOutbox(db, now);
  }

  lemma RollbackRelays(db: Db, logical: LogicalId)
    ensures Rollback(db, logical).relayReceipts == db.relayReceipts
  {
    hide LinkRows;
  }

  lemma PutDrops(db: Db, member: MemberId, limits: Limits, receipt: Receipt, frame: RelayFrame, from: MemberId, at: nat, id: ReceiptId)
    requires id in db.relayReceipts && id !in After(db, PutRelayReceipt(db, member, limits, receipt, frame, from, at)).relayReceipts
    ensures db.relayReceipts[id].frame.expiresAt <= at
  {
  }

  /** A message reported as delivered has been committed by every target of every one of its objects. */
  lemma DeliveredMessageIsCommitted(limits: Limits, run: seq<Net>, who: MemberId, logical: LogicalId, now: nat)
    requires IsRun(limits, run) && who in Last(run).stores && now <= MAX_LOGICAL_TIME
    requires
      var s := Summary(Last(run).stores[who], logical, now);
      s.Ok? && s.value.Some? && s.value.value.state.Delivered?
    ensures FullyLinked(Last(run).stores[who], logical)
    ensures forall id, t :: id in LinkedTo(Last(run).stores[who], logical) && t in id.manifest.targets ==> TargetCommitted(run, id, t)
  {
    hide Initial, Next, Evidence, Witnessed, TargetCommitted, LinkRows, ReceiptCounts, Inv, AllConfirmed;
    RunSafe(limits, run);
    var db := Last(run).stores[who];
    SummaryExact(who, db, logical, now);
    forall id, t | id in LinkedTo(db, logical) && t in id.manifest.targets ensures TargetCommitted(run, id, t) {
      LinkedConfirmed(who, db, logical, id);
      ConfirmedCommitted(limits, run, who, id);
    }
  }

  lemma LinkedConfirmed(member: MemberId, db: Db, logical: LogicalId, id: ObjectId)
    requires Inv(member, db) && id in LinkedTo(db, logical) && id !in db.outbox
    ensures AllConfirmed(id, db.targetReceipts)
  {
    hide ObjectsOk, ChunksOk, CompleteOk, ModesOk, RelayOk, DeliveriesOk, OperationsOk, ReceiptsOk, Committed, AllConfirmed, WithinTotals;
  }
}
