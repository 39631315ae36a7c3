/** Authenticity over every run of the network: what any member stores as announced, its origin had committed. */
module NetworkOrigins {
  import opened Types
  import opened Protocol
  import opened Tables
  import opened TablesInvariant
  import opened StoreRuns
  import opened Network
  import opened NetworkSafety
  import opened Effects

  /** The origin's store holds the object committed, under this announcement. */
  ghost predicate QueuedAt(net: Net, a: Announcement) {
    var o, id := a.manifest.origin, a.manifest.Id();
    o in net.stores && Committed(net.stores[o].operations, id) && id in net.stores[o].announcements && net.stores[o].announcements[id] == a
  }

  ghost predicate EverQueued(run: seq<Net>, a: Announcement) { exists i :: 0 <= i < |run| && QueuedAt(run[i], a) }

  /** Every stored announcement is signed. */
  ghost predicate AllSigned(oracle: Oracle, db: Db) { forall id :: id in db.announcements ==> db.announcements[id] in oracle.announcements }

  ghost predicate SignedNet(net: Net) { forall m :: m in net.stores ==> AllSigned(net.oracle, net.stores[m]) }

  ghost predicate Originated(run: seq<Net>, oracle: Oracle) { forall a :: a in oracle.announcements ==> EverQueued(run, a) }

  /** The announcement a transaction may add. */
  function Brought(op: Op): Option<Announcement> {
    if op.CommitOp? then op.announcement else if op.AnnounceAuthenticatedOp? then Some(op.authenticated.announcement) else None
  }

  /** A transaction adds no announcement but the one it brings. */
  lemma OpAnnouncements(member: MemberId, limits: Limits, db: Db, op: Op, id: ObjectId)
    requires Inv(member, db) && WellFormed(op) && id in Apply(member, limits, db, op).announcements
    ensures
      var a := Apply(member, limits, db, op).announcements[id];
      (id in db.announcements && db.announcements[id] == a) || Brought(op) == Some(a)
  {
    hide Inv, Reserve, BeginLogical, CommitOutgoing, Announce, AnnounceAuthenticated, PutChunk, StageChunk, FinalizeReceived,
      RecordTargetReceipt, OriginReceiptAck, RecordReceiptAck, PutRelayReceipt, PutRelayAck, Prune, Rollback, PreparedObject.Valid;
    match op {
      case CommitOp(operation, hash, prepared, at, announcement, link) =>
        CommitAnnouncements(member, limits, db, operation, hash, prepared, at, announcement, link);
      case AnnounceAuthenticatedOp(a, roster, at) => AnnounceAnnouncements(member, limits, db, a, roster, at);
      case PruneOp(at) => PruneAnnouncements(member, db, at);
      case RollbackOp(logical) => RollbackAnnouncements(db, logical);
      case _ =>
        hide Apply;
        OtherAnnouncements(member, limits, db, op);
    }
  }

  lemma CommitAnnouncements(member: MemberId, limits: Limits, db: Db, op: OperationId, hash: nat, prepared: PreparedObject, at: nat,
    announcement: Option<Announcement>, link: Option<LogicalId>)
    requires Inv(member, db) && prepared.Valid()
    ensures
      var o := CommitOutgoing(db, member, limits, op, hash, prepared, at, announcement, link);
      o.Done? ==> forall id :: id in o.db.announcements ==>
        (id in db.announcements && o.db.announcements[id] == db.announcements[id]) || announcement == Some(o.db.announcements[id])
  {
    hide Inv, CommitOutgoing, PreparedObject.Valid, StoresChunks, HasRoom, HasPlace, SameMode;
    CommitEffect(db, member, limits, op, hash, prepared, at, announcement, link);
  }

  lemma AnnounceAnnouncements(member: MemberId, limits: Limits, db: Db, a: Authenticated, roster: Roster, at: nat)
    requires Inv(member, db)
    ensures
      var o := AnnounceAuthenticated(db, limits, a, roster, at);
      o.Done? ==> forall id :: id in o.db.announcements ==>
        (id in db.announcements && o.db.announcements[id] == db.announcements[id]) || o.db.announcements[id] == a.announcement
  {
    hide Inv, AnnounceAuthenticated, Announceable;
    AnnounceEffect(member, db, limits, a, roster, at);
  }

  lemma PruneAnnouncements(member: MemberId, db: Db, at: nat)
    requires Inv(member, db)
    ensures Prune(db, at).Done? ==> SubMap(Prune(db, at).db.announcements, db.announcements)
  {
    hide Inv, Prune, KeepsUsed, LosesRows;
    PruneEffect(member, db, at);
  }

  lemma RollbackAnnouncements(db: Db, logical: LogicalId)
    ensures SubMap(Rollback(db, logical).announcements, db.announcements)
  {
    hide Rollback, KeepsUsed, LosesRows;
    RollbackEffect(db, logical);
  }

  /** Every other transaction leaves the announcements as they are. */
  lemma OtherAnnouncements(member: MemberId, limits: Limits, db: Db, op: Op)
    requires Inv(member, db) && !(op.CommitOp? || op.AnnounceAuthenticatedOp? || op.PruneOp? || op.RollbackOp?)
    ensures Apply(member, limits, db, op).announcements == db.announcements
  {
    hide Inv, Reserve, BeginLogical, Announce, PutChunk, StageChunk, FinalizeReceived, Sets, Gains, Completes, Takeable, Finalizable;
    match op {
      case ReserveOp(id, hash) => ReserveEffect(db, limits, id, hash);
      case BeginOp(logical, targets, audiences, expiresAt, at) => BeginEffect(db, logical, targets, audiences, expiresAt, at);
      case AnnounceOp(manifest, at) => AnnounceLegacyEffect(member, db, limits, manifest, at);
      case PutChunkOp(id, index, bytes, at, relay) => PutChunkEffect(db, member, id, index, bytes, at, relay);
      case StageChunkOp(id, index, bytes, at) => StageChunkEffect(db, member, id, index, bytes, at);
      case FinalizeOp(delivery, roster, key, signature, at) => FinalizeEffect(db, member, delivery, roster, key, signature, at);
      case _ =>
        hide Apply;
        ReceiptOps(member, limits, db, op);
    }
  }

  /** Transactions on receipts and acknowledgements add neither. */
  lemma ReceiptOps(member: MemberId, limits: Limits, db: Db, op: Op)
    requires Inv(member, db)
    requires || op.RecordReceiptOp? || op.OriginAckOp? || op.RecordAckOp? || op.PutRelayReceiptOp? || op.PutRelayAckOp? || op.RemoveRelayReceiptOp?
    ensures Apply(member, limits, db, op).announcements == db.announcements && Apply(member, limits, db, op).deliveries == db.deliveries
  {
    hide Inv, RecordTargetReceipt, OriginReceiptAck, RecordReceiptAck, PutRelayReceipt, PutRelayAck, Sets, Gains, Recordable, Retainable;
    match op {
      case RecordReceiptOp(receipt, roster, at) => RecordReceiptEffect(db, member, receipt, roster, at);
      case OriginAckOp(id, actor, envelope, roster, key, signature, at, oracle) =>
        if OriginReceiptAck(db, member, id, actor, envelope, roster, key, signature, at, oracle).Done? {
          OriginAckEffect(db, member, id, actor, envelope, roster, key, signature, at, oracle);
        }
      case RecordAckOp(ack, roster, at) => RecordAckEffect(db, member, ack, roster, at);
      case PutRelayReceiptOp(receipt, frame, from, at) => RelayReceiptEffect(db, member, limits, receipt, frame, from, at);
      case PutRelayAckOp(ack, frame, from, at) => RelayAckEffect(db, member, limits, ack, frame, from, at);
      case RemoveRelayReceiptOp(id) =>
    }
  }

  // ----- one step -----

  /** Announcements come with a signature already made, or with the commit of their own origin. */
  lemma TransactionsBring(db: Db, member: MemberId, limits: Limits, oracle: Oracle, action: Action)
    ensures
      var ops := Transactions(db, member, limits, oracle, action);
      && (forall op :: op in ops && Brought(op).Some? ==> |ops| == 1 && (action.Seal? || Brought(op).value in oracle.announcements))
      && (action.Seal? && ops != [] ==>
            ops == [CommitOp(action.operation, action.commandHash, action.prepared, action.at,
                             Some(SignedAnnouncement(action.roster, action.prepared.manifest, action.signature)), action.logical)]
            && action.prepared.Valid())
  {
    hide PreparedObject.Valid, Manifest.Valid, VerifyTargetReceipt, PutRelayAck, VerifyReceived, Deliverable, VerifyAck,
      Authenticated.ValidateRoster, Roster.ValidateAt, Incomplete, WellFormed, ExpiresWith;
  }

  /** A commit that succeeds leaves its object committed under its announcement, at its origin. */
  lemma SealStores(member: MemberId, limits: Limits, db: Db, op: OperationId, hash: nat, prepared: PreparedObject, at: nat, a: Announcement,
    link: Option<LogicalId>)
    requires Inv(member, db) && prepared.Valid() && a.manifest == prepared.manifest
    requires CommitOutgoing(db, member, limits, op, hash, prepared, at, Some(a), link).Done?
    ensures
      var db', id := CommitOutgoing(db, member, limits, op, hash, prepared, at, Some(a), link).db, prepared.manifest.Id();
      a.manifest.origin == member && Committed(db'.operations, id) && id in db'.announcements && db'.announcements[id] == a
  {
    hide Inv, CommitOutgoing, PreparedObject.Valid, StoresChunks, HasRoom, HasPlace, OnlyTouches;
    var id := prepared.manifest.Id();
    CommitEffect(db, member, limits, op, hash, prepared, at, Some(a), link);
    var db' := CommitOutgoing(db, member, limits, op, hash, prepared, at, Some(a), link).db;
    assert db'.operations[op].objectId == Some(id);
    if db.operations[op].objectId.Some? { NamedStored(member, db, op); }
  }

  lemma NamedStored(member: MemberId, db: Db, op: OperationId)
    requires Inv(member, db) && op in db.operations && db.operations[op].objectId.Some?
    ensures db.operations[op].objectId.value in db.objects
  {
    hide ObjectsOk, ChunksOk, CompleteOk, ModesOk, RelayOk, DeliveriesOk, ReceiptsOk, OutboxOk, LinksOk;
  }

  /** The signature of a step, if it makes one, is under the announcement its commit has just stored. */
  ghost predicate Queues(member: MemberId, db': Db, oracle: Oracle, oracle': Oracle) {
    && oracle.announcements <= oracle'.announcements
    && (forall a :: a in oracle'.announcements && a !in oracle.announcements ==>
          && a.manifest.origin == member && Committed(db'.operations, a.manifest.Id())
          && a.manifest.Id() in db'.announcements && db'.announcements[a.manifest.Id()] == a)
  }

  lemma StepSigned(member: MemberId, limits: Limits, db: Db, oracle: Oracle, action: Action)
    requires Inv(member, db) && AllSigned(oracle, db)
    ensures
      var db', oracle' := Run(member, limits, db, Transactions(db, member, limits, oracle, action)), Signed(db, member, limits, oracle, action);
      AllSigned(oracle', db') && Queues(member, db', oracle, oracle')
  {
    hide Inv, AllSigned, Queues, Transactions, Apply, Signed;
    var ops, oracle' := Transactions(db, member, limits, oracle, action), Signed(db, member, limits, oracle, action);
    TransactionsBring(db, member, limits, oracle, action);
    TransactionsShape(db, member, limits, oracle, action);
    TransactionsWellFormed(db, member, limits, oracle, action);
    if action.Seal? && ops != [] {
      RunOne(member, limits, db, ops[0]);
      SealSigned(member, limits, db, oracle, action);
    } else {
      OthersSign(db, member, limits, oracle, action);
      RunSigned(member, limits, db, oracle, ops);
      SameAnnouncements(member, Run(member, limits, db, ops), oracle, oracle');
    }
  }

  lemma SameAnnouncements(member: MemberId, db: Db, oracle: Oracle, oracle': Oracle)
    requires oracle'.announcements == oracle.announcements && AllSigned(oracle, db)
    ensures AllSigned(oracle', db) && Queues(member, db, oracle, oracle')
  {
  }

  lemma OthersSign(db: Db, member: MemberId, limits: Limits, oracle: Oracle, action: Action)
    requires !action.Seal? || Transactions(db, member, limits, oracle, action) == []
    ensures Signed(db, member, limits, oracle, action).announcements == oracle.announcements
  {
    hide Transactions, FinalizeReceived, OriginReceiptAck;
  }

  lemma SealSigned(member: MemberId, limits: Limits, db: Db, oracle: Oracle, action: Action)
    requires Inv(member, db) && AllSigned(oracle, db) && action.Seal? && Transactions(db, member, limits, oracle, action) != []
    ensures
      var ops := Transactions(db, member, limits, oracle, action);
      var db', oracle' := Apply(member, limits, db, ops[0]), Signed(db, member, limits, oracle, action);
      AllSigned(oracle', db') && Queues(member, db', oracle, oracle')
  {
    hide Inv, Transactions, CommitOutgoing, PreparedObject.Valid;
    TransactionsBring(db, member, limits, oracle, action);
    var a := SignedAnnouncement(action.roster, action.prepared.manifest, action.signature);
    CommitAnnouncements(member, limits, db, action.operation, action.commandHash, action.prepared, action.at, Some(a), action.logical);
    if CommitOutgoing(db, member, limits, action.operation, action.commandHash, action.prepared, action.at, Some(a), action.logical).Done? {
      SealStores(member, limits, db, action.operation, action.commandHash, action.prepared, action.at, a, action.logical);
    }
  }

  lemma {:induction false} RunSigned(member: MemberId, limits: Limits, db: Db, oracle: Oracle, ops: seq<Op>)
    requires Inv(member, db) && AllSigned(oracle, db) && AllWellFormed(ops)
    requires forall op :: op in ops && Brought(op).Some? ==> Brought(op).value in oracle.announcements
    ensures AllSigned(oracle, Run(member, limits, db, ops))
    decreases |ops|
  {
    hide Inv, Apply, WellFormed, Brought;
    if ops != [] {
      var next := Apply(member, limits, db, ops[0]);
      assert ops[0] in ops;
      forall id | id in next.announcements ensures next.announcements[id] in oracle.announcements {
        OpAnnouncements(member, limits, db, ops[0], id);
      }
      ApplyKeeps(member, limits, db, ops[0]);
      assert forall op :: op in ops[1..] ==> op in ops;
      RunSigned(member, limits, next, oracle, ops[1..]);
    }
  }

  // ----- every run -----

  lemma {:induction false} RunOriginated(limits: Limits, run: seq<Net>)
    requires IsRun(limits, run)
    ensures SignedNet(Last(run)) && Originated(run, Last(run).oracle)
    decreases |run|
  {
    hide Inv, AllSigned, Queues, Transactions, Signed, Run, Evidence, EverQueued;
    var last := |run| - 1;
    if last == 0 {
      assert AllSigned(run[0].oracle, EMPTY) by { EmptySigned(run[0].oracle); }
    } else {
      var prefix := run[..last];
      RunOriginated(limits, prefix);
      RunSafe(limits, prefix);
      assert Next(limits, run[last - 1], run[last]);
      var who, action :| who in run[last - 1].stores && run[last] == Step(limits, run[last - 1], who, action);
      StepSigned(who, limits, run[last - 1].stores[who], run[last - 1].oracle, action);
      NetSigned(run[last - 1], run[last], who);
      StepOriginated(run, who);
    }
  }

  lemma EmptySigned(oracle: Oracle)
    ensures AllSigned(oracle, EMPTY)
  {
  }

  lemma NetSigned(net: Net, net': Net, who: MemberId)
    requires SignedNet(net) && who in net.stores && who in net'.stores && net'.stores == net.stores[who := net'.stores[who]]
    requires AllSigned(net'.oracle, net'.stores[who]) && Queues(who, net'.stores[who], net.oracle, net'.oracle)
    ensures SignedNet(net')
  {
  }

  lemma StepOriginated(run: seq<Net>, who: MemberId)
    requires |run| > 1 && who in run[|run| - 1].stores
    requires Originated(run[..|run| - 1], run[|run| - 2].oracle)
    requires Queues(who, run[|run| - 1].stores[who], run[|run| - 2].oracle, run[|run| - 1].oracle)
    ensures Originated(run, run[|run| - 1].oracle)
  {
    hide QueuedAt;
    var last := |run| - 1;
    forall a | a in run[last].oracle.announcements ensures EverQueued(run, a) {
      if a in run[last - 1].oracle.announcements {
        assert EverQueued(run[..last], a);
        var i :| 0 <= i < last && QueuedAt(run[..last][i], a);
        assert QueuedAt(run[i], a);
      } else {
        NewlyQueued(run[last], who, run[last - 1].oracle, a);
        assert QueuedAt(run[last], a);
      }
    }
  }

  lemma NewlyQueued(net: Net, who: MemberId, oracle: Oracle, a: Announcement)
    requires who in net.stores && Queues(who, net.stores[who], oracle, net.oracle)
    requires a in net.oracle.announcements && a !in oracle.announcements
    ensures QueuedAt(net, a)
  {
  }

  // ----- the theorems -----

  /** Whatever announced object any member stores, its origin had committed it under that very announcement. */
  lemma AnnouncedWasCommitted(limits: Limits, run: seq<Net>, m: MemberId, id: ObjectId)
    requires IsRun(limits, run) && m in Last(run).stores && id in Last(run).stores[m].announcements
    ensures
      var a := Last(run).stores[m].announcements[id];
      a.manifest == id.manifest && EverQueued(run, a)
  {
    hide EverQueued, Evidence;
    RunOriginated(limits, run);
    RunSafe(limits, run);
    assert AllSigned(Last(run).oracle, Last(run).stores[m]);
    AnnouncedIs(m, Last(run).stores[m], id);
  }

  lemma AnnouncedIs(member: MemberId, db: Db, id: ObjectId)
    requires Inv(member, db) && id in db.announcements
    ensures db.announcements[id].manifest == id.manifest
  {
    hide ObjectsOk, ChunksOk, CompleteOk, RelayOk, DeliveriesOk, OperationsOk, ReceiptsOk, OutboxOk, LinksOk;
    assert db.announcements[id].manifest.Id() == id;
  }

  /** A chunk that any member holds of an announced object is the one its origin had stored when it committed the object. */
  lemma ChunksAreTheOrigins(limits: Limits, run: seq<Net>, m: MemberId, id: ObjectId, index: nat) returns (i: nat)
    requires IsRun(limits, run) && m in Last(run).stores && id in Last(run).stores[m].announcements
    requires (id, index) in Last(run).stores[m].chunks
    ensures i < |run| && id.manifest.origin in run[i].stores
    ensures
      var origin := run[i].stores[id.manifest.origin];
      Committed(origin.operations, id) && (id, index) in origin.chunks && origin.chunks[(id, index)] == Last(run).stores[m].chunks[(id, index)]
  {
    hide Evidence, Witnessed, Inv, Initial, Next;
    AnnouncedWasCommitted(limits, run, m, id);
    var a := Last(run).stores[m].announcements[id];
    i :| 0 <= i < |run| && QueuedAt(run[i], a);
    RunSafe(limits, run);
    RunSafe(limits, run[..i + 1]);
    var o := id.manifest.origin;
    CommittedWhole(o, run[i].stores[o], id, index, m, Last(run).stores[m]);
  }

  lemma CommittedWhole(o: MemberId, origin: Db, id: ObjectId, index: nat, m: MemberId, db: Db)
    requires Inv(o, origin) && Inv(m, db) && Committed(origin.operations, id) && (id, index) in db.chunks
    ensures (id, index) in origin.chunks && origin.chunks[(id, index)] == db.chunks[(id, index)]
  {
    hide ModesOk, RelayOk, DeliveriesOk, ReceiptsOk, OutboxOk, LinksOk, Manifest.Fits, Manifest.Valid, SameSlot;
    var p :| p in origin.operations && origin.operations[p].objectId == Some(id);
    assert Claims(o, origin.objects, origin.operations[p], id);
    assert AllChunks(id, origin.chunks);
    assert origin.objects[id].manifest.Id() == id && db.objects[id].manifest.Id() == id;
    FitsBound(id.manifest, index, db.chunks[(id, index)]);
    SameChunk(id.manifest, index, origin.chunks[(id, index)], db.chunks[(id, index)]);
  }

  // ----- deliveries are to the addressed -----

  /** Every receipt a member issued is for an object of another member, addressed to it, at a time before its expiry. */
  ghost predicate Addressed(member: MemberId, db: Db) {
    forall id :: id in db.deliveries ==>
      && id.manifest.origin != member && member in id.manifest.targets && db.deliveries[id].at < id.manifest.expiresAt
      && db.deliveries[id].sequence == id.manifest.sequence
  }

  ghost predicate AddressedNet(net: Net) { forall m :: m in net.stores ==> Addressed(m, net.stores[m]) }

  /** A proof that a finalize call brings. */
  predicate Proves(member: MemberId, op: Op) {
    op.FinalizeOp? ==>
      && op.delivery.Subject().manifest.origin != member && member in op.delivery.Subject().manifest.targets
      && op.delivery.deadline <= op.delivery.Subject().manifest.expiresAt
  }

  lemma TransactionsProve(db: Db, member: MemberId, limits: Limits, oracle: Oracle, action: Action)
    requires Inv(member, db)
    ensures forall op :: op in Transactions(db, member, limits, oracle, action) ==> Proves(member, op)
  {
    hide Inv, PreparedObject.Valid, Manifest.Valid, VerifyTargetReceipt, PutRelayAck, VerifyReceived, Deliverable, VerifyAck,
      Authenticated.ValidateRoster, Roster.ValidateAt, Incomplete, WellFormed, ExpiresWith, VerifiedDelivery.Subject;
    if action.FinalizeText? { FinalizeProves(db, member, action.id, action.envelope, action.decrypts, action.roster, action.at, oracle); }
  }

  lemma FinalizeProves(db: Db, member: MemberId, id: ObjectId, envelope: Result<Envelope, DurableError>, decrypts: bool, roster: Roster,
    at: nat, oracle: Oracle)
    requires Inv(member, db)
    ensures Deliverable(db, member, id, at) && VerifyReceived(db, member, id, envelope, decrypts, roster, at, oracle).Ok? ==>
      var p := VerifyReceived(db, member, id, envelope, decrypts, roster, at, oracle).value;
      && p.Subject() == id && id.manifest.origin != member && member in id.manifest.targets && p.deadline <= id.manifest.expiresAt
  {
    hide Inv, ChunkError, Manifest.Valid, StoredAnnouncement, VerifyDelivery;
    if id in db.objects { RowOf(member, db, id); }
    var a := StoredAnnouncement(db, id, roster, at, oracle);
    StoredAnnouncementIs(db, id, roster, at, oracle);
    if a.Ok? { DeliveryIs(a.value, envelope, decrypts, roster, member, at); }
  }

  lemma StoredAnnouncementIs(db: Db, id: ObjectId, roster: Roster, at: nat, oracle: Oracle)
    ensures StoredAnnouncement(db, id, roster, at, oracle).Ok? ==>
      id in db.objects && StoredAnnouncement(db, id, roster, at, oracle).value.Manifest() == db.objects[id].manifest
  {
    hide AuthenticateAnnouncement;
  }

  lemma DeliveryIs(a: Authenticated, envelope: Result<Envelope, DurableError>, decrypts: bool, roster: Roster, member: MemberId, at: nat)
    ensures VerifyDelivery(a, envelope, decrypts, roster, member, at).Ok? ==>
      var p := VerifyDelivery(a, envelope, decrypts, roster, member, at).value;
      p.announcement == a && p.deadline <= a.Manifest().expiresAt && member in a.Manifest().targets
  {
    hide Authenticated.ValidateRoster;
  }

  lemma FinalizeAddressed(member: MemberId, db: Db, proof: VerifiedDelivery, roster: Roster, key: nat, signature: nat, at: nat)
    requires Inv(member, db) && Addressed(member, db) && Proves(member, FinalizeOp(proof, roster, key, signature, at))
    ensures Addressed(member, After(db, FinalizeReceived(db, member, proof, roster, key, signature, at)))
  {
    hide Inv, FinalizeReceived, OnlyTouches, AllChunks;
    FinalizeEffect(db, member, proof, roster, key, signature, at);
  }

  lemma FewerAddressed(member: MemberId, db: Db, db': Db)
    requires Addressed(member, db) && SubMap(db'.deliveries, db.deliveries)
    ensures Addressed(member, db')
  {
  }

  lemma OpAddressed(member: MemberId, limits: Limits, db: Db, op: Op)
    requires Inv(member, db) && WellFormed(op) && Addressed(member, db) && Proves(member, op)
    ensures Addressed(member, Apply(member, limits, db, op))
  {
    hide Inv, Reserve, BeginLogical, CommitOutgoing, Announce, AnnounceAuthenticated, PutChunk, StageChunk, FinalizeReceived,
      Addressed, Prune, Rollback, PreparedObject.Valid, Proves, Deleted, KeepsUsed, OnlyTouches;
    match op {
      case FinalizeOp(proof, roster, key, signature, at) => FinalizeAddressed(member, db, proof, roster, key, signature, at);
      case PruneOp(at) =>
        PruneDeliveries(member, db, at, 0);
        FewerAddressed(member, db, After(db, Prune(db, at)));
      case RollbackOp(logical) =>
        PruneDeliveries(member, db, 0, logical);
        FewerAddressed(member, db, Rollback(db, logical));
      case _ =>
        hide Apply;
        OtherDeliveries(member, limits, db, op);
        FewerAddressed(member, db, Apply(member, limits, db, op));
    }
  }

  lemma PruneDeliveries(member: MemberId, db: Db, at: nat, logical: LogicalId)
    requires Inv(member, db)
    ensures SubMap(After(db, Prune(db, at)).deliveries, db.deliveries) && SubMap(Rollback(db, logical).deliveries, db.deliveries)
  {
    hide Inv, Prune, Rollback, KeepsUsed, LosesRows, MessagesOutlive, HasLiveObject;
    PruneEffect(member, db, at);
    RollbackEffect(db, logical);
  }

  lemma OtherDeliveries(member: MemberId, limits: Limits, db: Db, op: Op)
    requires Inv(member, db) && WellFormed(op) && !(op.FinalizeOp? || op.PruneOp? || op.RollbackOp?)
    ensures Apply(member, limits, db, op).deliveries == db.deliveries
  {
    hide Inv, Reserve, BeginLogical, CommitOutgoing, Announce, AnnounceAuthenticated, PutChunk, StageChunk, Sets, Gains, Completes, Takeable,
      StoresChunks, Announceable, HasRoom, HasPlace, SameMode, PreparedObject.Valid, Manifest.Valid;
    match op {
      case ReserveOp(id, hash) => ReserveEffect(db, limits, id, hash);
      case BeginOp(logical, targets, audiences, expiresAt, at) => BeginEffect(db, logical, targets, audiences, expiresAt, at);
      case CommitOp(id, hash, prepared, at, announcement, link) =>
        CommitEffect(db, member, limits, id, hash, prepared, at, announcement, link);
      case AnnounceOp(manifest, at) => AnnounceLegacyEffect(member, db, limits, manifest, at);
      case AnnounceAuthenticatedOp(a, roster, at) => AnnounceEffect(member, db, limits, a, roster, at);
      case PutChunkOp(id, index, bytes, at, relay) => PutChunkEffect(db, member, id, index, bytes, at, relay);
      case StageChunkOp(id, index, bytes, at) => StageChunkEffect(db, member, id, index, bytes, at);
      case _ =>
        hide Apply;
        ReceiptOps(member, limits, db, op);
    }
  }

  lemma {:induction false} OpsAddressed(member: MemberId, limits: Limits, db: Db, ops: seq<Op>)
    requires Inv(member, db) && AllWellFormed(ops) && Addressed(member, db) && forall op :: op in ops ==> Proves(member, op)
    ensures Addressed(member, Run(member, limits, db, ops))
    decreases |ops|
  {
    hide Inv, Apply, WellFormed, Proves, Addressed;
    if ops != [] {
      assert ops[0] in ops && forall op :: op in ops[1..] ==> op in ops;
      OpAddressed(member, limits, db, ops[0]);
      ApplyKeeps(member, limits, db, ops[0]);
      OpsAddressed(member, limits, Apply(member, limits, db, ops[0]), ops[1..]);
    }
  }

  lemma {:induction false} RunAddressed(limits: Limits, run: seq<Net>)
    requires IsRun(limits, run)
    ensures AddressedNet(Last(run))
    decreases |run|
  {
    hide Inv, Addressed, Transactions, Signed, Run, Evidence, Proves;
    var last := |run| - 1;
    if last == 0 {
      forall m | m in run[0].stores ensures Addressed(m, run[0].stores[m]) { EmptyAddressed(m); }
    } else {
      var prefix := run[..last];
      RunAddressed(limits, prefix);
      RunSafe(limits, prefix);
      assert Next(limits, run[last - 1], run[last]);
      var who, action :| who in run[last - 1].stores && run[last] == Step(limits, run[last - 1], who, action);
      var db, oracle := run[last - 1].stores[who], run[last - 1].oracle;
      TransactionsWellFormed(db, who, limits, oracle, action);
      TransactionsProve(db, who, limits, oracle, action);
      OpsAddressed(who, limits, db, Transactions(db, who, limits, oracle, action));
    }
  }

  lemma EmptyAddressed(member: MemberId)
    ensures Addressed(member, EMPTY)
  {
  }

  /** In every run a member delivers only objects of others that are addressed to it, before they expire, and that their origin committed. */
  lemma DeliveredWasAddressed(limits: Limits, run: seq<Net>, m: MemberId, id: ObjectId)
    requires IsRun(limits, run) && m in Last(run).stores && id in Last(run).stores[m].deliveries
    ensures id.manifest.origin != m && m in id.manifest.targets && Last(run).stores[m].deliveries[id].at < id.manifest.expiresAt
    ensures id in Last(run).stores[m].announcements && EverQueued(run, Last(run).stores[m].announcements[id])
  {
    hide EverQueued, Evidence, Inv, Witnessed;
    RunAddressed(limits, run);
    RunSafe(limits, run);
    assert Addressed(m, Last(run).stores[m]);
    DeliveredTogether(m, Last(run).stores[m], id);
    AnnouncedWasCommitted(limits, run, m, id);
  }
}
