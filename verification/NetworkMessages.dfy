/**
 * Logical messages over every run of the network: once every audience of a message is queued, the message is never taken back.
 * Its objects leave the outbox only when they expire or when every target has committed.
 */
module NetworkMessages {
  import opened Types
  import opened Sums
  import opened Protocol
  import opened Tables
  import opened TablesInvariant
  import opened StoreRuns
  import opened Network
  import opened NetworkSafety

  // ----- what each transaction can do to messages and links -----

  ghost predicate Steady(db: Db, db': Db) { db'.links == db.links && db'.logical == db.logical }

  predicate TouchesMessages(op: Op) { op.BeginOp? || op.CommitOp? || op.PruneOp? || op.RollbackOp? }

  lemma AnnounceSteady(db: Db, limits: Limits, m: Manifest, at: nat)
    ensures Steady(db, After(db, Announce(db, limits, m, at)))
  {
    hide InsertManifest, ModeAllows, Live;
    var o := Announce(db, limits, m, at);
    if o.Done? { assert o.db == db.(objects := o.db.objects); }
  }

  lemma AnnounceAuthenticatedSteady(db: Db, limits: Limits, a: Authenticated, roster: Roster, at: nat)
    ensures Steady(db, After(db, AnnounceAuthenticated(db, limits, a, roster, at)))
  {
    hide InsertManifest, ModeAllows, RecordAnnouncement, Authenticated.ValidateRoster, Live;
  }

  lemma PutChunkSteady(db: Db, member: MemberId, id: ObjectId, index: nat, bytes: Bytes, at: nat, relay: Option<RelayMetadata>)
    ensures Steady(db, After(db, PutChunk(db, member, id, index, bytes, at, relay)))
  {
    hide PutChunk;
    if PutChunk(db, member, id, index, bytes, at, relay).Done? { PutChunkFrame(db, member, id, index, bytes, at, relay); }
  }

  lemma StageChunkSteady(db: Db, id: ObjectId, index: nat, bytes: Bytes, at: nat)
    ensures Steady(db, After(db, StageChunk(db, id, index, bytes, at)))
  {
    hide InsertChunk, IndicesIn, Manifest.VerifyChunk, Live;
  }

  lemma FinalizeSteady(db: Db, member: MemberId, proof: VerifiedDelivery, roster: Roster, key: nat, signature: nat, at: nat)
    ensures Steady(db, After(db, FinalizeReceived(db, member, proof, roster, key, signature, at)))
  {
    hide Completed, ChunkError, Authenticated.ValidateRoster, VerifiedDelivery.ValidateCommit, VerifiedDelivery.ReceiptForCommit;
  }

  lemma OriginAckSteady(db: Db, member: MemberId, id: ObjectId, actor: MemberId, envelope: Result<Envelope, DurableError>,
    roster: Roster, key: nat, signature: nat, at: nat, oracle: Oracle)
    ensures Steady(db, After(db, OriginReceiptAck(db, member, id, actor, envelope, roster, key, signature, at, oracle)))
  {
    hide VerifyTargetReceipt, VerifyAck, Roster.ValidateAt, IssueAck;
  }

  lemma RecordAckSteady(db: Db, member: MemberId, ack: Ack, roster: Roster, at: nat)
    ensures Steady(db, After(db, RecordReceiptAck(db, member, ack, roster, at)))
  {
    hide Roster.ValidateAt, InsertOrIgnore;
    var o := RecordReceiptAck(db, member, ack, roster, at);
    if o.Done? { assert o.db == db.(acknowledged := o.db.acknowledged); }
  }

  lemma SteadyOps(member: MemberId, limits: Limits, db: Db, op: Op)
    requires !TouchesMessages(op)
    ensures Steady(db, Apply(member, limits, db, op))
  {
    hide After, Reserve, BeginLogical, CommitOutgoing, Announce, AnnounceAuthenticated, PutChunk, StageChunk, FinalizeReceived,
      OriginReceiptAck, PutRelayAck, RecordTargetReceipt, RecordReceiptAck, PutRelayReceipt, Prune, Rollback, Steady;
    match op {
      case AnnounceOp(m, at) => AnnounceSteady(db, limits, m, at);
      case AnnounceAuthenticatedOp(a, roster, at) => AnnounceAuthenticatedSteady(db, limits, a, roster, at);
      case PutChunkOp(id, index, bytes, at, relay) => PutChunkSteady(db, member, id, index, bytes, at, relay);
      case StageChunkOp(id, index, bytes, at) => StageChunkSteady(db, id, index, bytes, at);
      case ReserveOp(id, hash) => ReserveSteady(db, limits, id, hash);
      case FinalizeOp(proof, roster, key, signature, at) => FinalizeSteady(db, member, proof, roster, key, signature, at);
      case RecordReceiptOp(proof, roster, at) => RecordSteady(db, member, proof, roster, at);
      case OriginAckOp(id, actor, envelope, roster, key, signature, at, oracle) =>
        OriginAckSteady(db, member, id, actor, envelope, roster, key, signature, at, oracle);
      case RecordAckOp(ack, roster, at) => RecordAckSteady(db, member, ack, roster, at);
      case PutRelayReceiptOp(receipt, frame, from, at) => RelayReceiptSteady(db, member, limits, receipt, frame, from, at);
      case PutRelayAckOp(ack, frame, from, at) => RelayAckSteady(db, member, limits, ack, frame, from, at);
      case RemoveRelayReceiptOp(id) => RemoveSteady(db, id);
    }
  }

  lemma ReserveSteady(db: Db, limits: Limits, op: OperationId, hash: nat)
    ensures Steady(db, After(db, Reserve(db, limits, op, hash)))
  {
    hide Reserve;
    if Reserve(db, limits, op, hash).Done? { ReserveFrame(db, limits, op, hash); }
  }

  lemma RecordSteady(db: Db, member: MemberId, proof: VerifiedReceipt, roster: Roster, at: nat)
    ensures Steady(db, After(db, RecordTargetReceipt(db, member, proof, roster, at)))
  {
    hide RecordTargetReceipt;
    if RecordTargetReceipt(db, member, proof, roster, at).Done? { RecordTables(db, member, proof, roster, at); }
  }

  lemma RelayReceiptSteady(db: Db, member: MemberId, limits: Limits, receipt: Receipt, frame: RelayFrame, from: MemberId, at: nat)
    ensures Steady(db, After(db, PutRelayReceipt(db, member, limits, receipt, frame, from, at)))
  {
    hide Retain;
  }

  lemma RelayAckSteady(db: Db, member: MemberId, limits: Limits, ack: Ack, frame: RelayFrame, from: MemberId, at: nat)
    ensures Steady(db, After(db, PutRelayAck(db, member, limits, ack, frame, from, at)))
  {
    hide Retain;
  }

  lemma RemoveSteady(db: Db, id: ReceiptId)
    ensures Steady(db, RemoveRelayReceipt(db, id))
  {
  }

  /** A message is declared at most once, and never with an audience count of zero. */
  lemma BeginDeclares(db: Db, id: LogicalId, targetCount: nat, audienceCount: nat, expiresAt: nat, now: nat)
    ensures
      var db' := After(db, BeginLogical(db, id, targetCount, audienceCount, expiresAt, now));
      && db'.links == db.links
      && (db'.logical == db.logical
          || (id !in db.logical && audienceCount > 0 && db'.logical == db.logical[id := Logical(now, expiresAt, targetCount, audienceCount)]))
  {
    var o := BeginLogical(db, id, targetCount, audienceCount, expiresAt, now);
    if o.Done? { assert o.db == db.(logical := o.db.logical); }
  }

  /** A commit links its object at most, and only into a message that lacks an audience. */
  lemma CommitLinks(db: Db, member: MemberId, limits: Limits, op: OperationId, hash: nat, prepared: PreparedObject, at: nat,
    announcement: Option<Announcement>, logical: Option<LogicalId>)
    ensures
      var db', id := After(db, CommitOutgoing(db, member, limits, op, hash, prepared, at, announcement, logical)), prepared.manifest.Id();
      && db'.logical == db.logical
      && (db'.links == db.links
          || (logical.Some? && logical.value in db.logical && Incomplete(db, logical.value) && id !in db.links
              && db'.links == db.links[id := Link(logical.value, |prepared.manifest.targets|)]))
  {
    hide InsertManifest, ChunkRows, ChunksClash, Claimed, ModeAllows, DeliverLegacy, RecordAnnouncement, LinkRows, Total;
  }

  // ----- messages and their objects expire together -----

  /** Every object expires with its message, and no message is declared without an audience. */
  ghost predicate Aligned(db: Db) {
    && (forall id :: id in db.links && db.links[id].logical in db.logical ==>
          db.logical[db.links[id].logical].expiresAt == id.manifest.expiresAt)
    && (forall l :: l in db.logical ==> db.logical[l].audienceCount > 0)
  }

  /** What the step functions keep to when they commit or roll back. */
  ghost predicate Guarded(db: Db, op: Op) {
    && (op.CommitOp? ==> ExpiresWith(db, op.prepared.manifest, op.link))
    && (op.RollbackOp? ==> Incomplete(db, op.logical))
  }

  lemma DeletionMessages(db: Db, ids: set<ObjectId>)
    ensures DeleteObjects(db, ids).links == db.links - ids && DeleteObjects(db, ids).logical == db.logical
  {
    hide OthersReservations, OfOthers;
  }

  lemma PruneMessages(db: Db, now: nat)
    requires Prune(db, now).Done?
    ensures
      var db', gone := Prune(db, now).db, ExpiredObjects(db, now);
      db'.links == db.links - gone && db'.logical == db.logical - StaleLogical(DeleteObjects(db, gone), now)
  {
    hide DeleteObjects, StaleLogical, ExpiredObjects, Unexpired, HasLinks, UsedReservations;
    DeletionMessages(db, ExpiredObjects(db, now));
  }

  lemma RollbackMessages(db: Db, logical: LogicalId)
    ensures
      Rollback(db, logical).links == db.links - LinkedTo(db, logical).Keys && Rollback(db, logical).logical == db.logical - {logical}
  {
    hide DeleteObjects, UsedReservations, LinkRows;
    DeletionMessages(db, LinkedTo(db, logical).Keys);
  }

  lemma OpAligned(member: MemberId, limits: Limits, db: Db, op: Op)
    requires Inv(member, db) && Aligned(db) && Guarded(db, op)
    ensures Aligned(Apply(member, limits, db, op))
  {
    hide Inv, Aligned, BeginLogical, CommitOutgoing, Prune, Rollback, LinkRows, After;
    match op {
      case BeginOp(logical, targets, audiences, expiresAt, at) => BeginAligned(member, db, logical, targets, audiences, expiresAt, at);
      case CommitOp(id, hash, prepared, at, announcement, link) =>
        CommitAligned(db, member, limits, id, hash, prepared, at, announcement, link);
      case PruneOp(at) => PruneAligned(db, at);
      case RollbackOp(logical) => RollbackAligned(db, logical);
      case _ =>
        hide Apply;
        SteadyOps(member, limits, db, op);
        SteadyAligned(db, Apply(member, limits, db, op));
    }
  }

  lemma BeginAligned(member: MemberId, db: Db, id: LogicalId, targetCount: nat, audienceCount: nat, expiresAt: nat, now: nat)
    requires Inv(member, db) && Aligned(db)
    ensures Aligned(After(db, BeginLogical(db, id, targetCount, audienceCount, expiresAt, now)))
  {
    hide ObjectsOk, ChunksOk, CompleteOk, ModesOk, RelayOk, DeliveriesOk, OperationsOk, ReceiptsOk, OutboxOk, Committed, WithinTotals,
      BeginLogical, LinkRows;
    BeginDeclares(db, id, targetCount, audienceCount, expiresAt, now);
    assert id !in db.logical ==> forall o :: o in db.links ==> db.links[o].logical != id;
  }

  lemma CommitAligned(db: Db, member: MemberId, limits: Limits, op: OperationId, hash: nat, prepared: PreparedObject, at: nat,
    announcement: Option<Announcement>, logical: Option<LogicalId>)
    requires Aligned(db) && ExpiresWith(db, prepared.manifest, logical)
    ensures Aligned(After(db, CommitOutgoing(db, member, limits, op, hash, prepared, at, announcement, logical)))
  {
    hide CommitOutgoing, Incomplete;
    CommitLinks(db, member, limits, op, hash, prepared, at, announcement, logical);
  }

  lemma PruneAligned(db: Db, now: nat)
    requires Aligned(db)
    ensures Aligned(After(db, Prune(db, now)))
  {
    hide Prune, ExpiredObjects, StaleLogical;
    if Prune(db, now).Done? { PruneMessages(db, now); }
  }

  lemma RollbackAligned(db: Db, logical: LogicalId)
    requires Aligned(db)
    ensures Aligned(Rollback(db, logical))
  {
    hide Rollback, LinkRows;
    RollbackMessages(db, logical);
  }

  lemma SteadyAligned(db: Db, db': Db)
    requires Aligned(db) && Steady(db, db')
    ensures Aligned(db')
  {
  }

  // ----- a fully linked message stays -----

  ghost predicate Whole(db: Db, logical: LogicalId) { logical in db.logical && FullyLinked(db, logical) }

  ghost predicate SameMessage(db: Db, db': Db, logical: LogicalId)
    requires logical in db.logical
  {
    logical in db'.logical && db'.logical[logical] == db.logical[logical] && LinkedTo(db', logical) == LinkedTo(db, logical)
  }

  lemma KeptLinks(db: Db, db': Db, logical: LogicalId, gone: set<ObjectId>)
    requires db'.links == db.links - gone && LinkedTo(db, logical).Keys !! gone
    ensures LinkedTo(db', logical) == LinkedTo(db, logical)
  {
    assert forall id :: id in db.links && db.links[id].logical == logical ==> id in LinkedTo(db, logical).Keys;
  }

  lemma PruneKeepsMessage(member: MemberId, db: Db, now: nat, logical: LogicalId)
    requires Inv(member, db) && Aligned(db) && Whole(db, logical) && now < db.logical[logical].expiresAt
    ensures SameMessage(db, After(db, Prune(db, now)), logical)
  {
    hide ObjectsOk, ChunksOk, CompleteOk, ModesOk, RelayOk, DeliveriesOk, OperationsOk, ReceiptsOk, OutboxOk, Total, Prune, Committed,
      WithinTotals, DeleteObjects;
    if Prune(db, now).Done? {
      PruneMessages(db, now);
      var gone := ExpiredObjects(db, now);
      DeletionMessages(db, gone);
      forall id | id in LinkedTo(db, logical) ensures id !in gone {
        if id in db.objects { RowOf(member, db, id); }
      }
      KeptLinks(db, Prune(db, now).db, logical, gone);
      assert LinkedTo(db, logical).Keys != {};
      var id :| id in LinkedTo(db, logical).Keys;
      assert HasLinks(DeleteObjects(db, gone), logical);
    }
  }

  lemma RollbackKeepsMessage(db: Db, other: LogicalId, logical: LogicalId)
    requires Whole(db, logical) && Incomplete(db, other)
    ensures SameMessage(db, Rollback(db, other), logical)
  {
    assert other != logical;
    hide Total, Rollback;
    RollbackMessages(db, other);
    KeptLinks(db, Rollback(db, other), logical, LinkedTo(db, other).Keys);
  }

  lemma OpKeepsMessage(member: MemberId, limits: Limits, db: Db, op: Op, logical: LogicalId)
    requires Inv(member, db) && Aligned(db) && Guarded(db, op) && Whole(db, logical)
    ensures (op.PruneOp? && db.logical[logical].expiresAt <= op.at) || SameMessage(db, Apply(member, limits, db, op), logical)
  {
    hide Inv, Aligned, BeginLogical, CommitOutgoing, Prune, Rollback, FullyLinked, LinkRows, After, SameMessage;
    match op {
      case BeginOp(id, targets, audiences, expiresAt, at) => BeginKeepsMessage(db, id, targets, audiences, expiresAt, at, logical);
      case CommitOp(id, hash, prepared, at, announcement, link) =>
        CommitKeepsMessage(db, member, limits, id, hash, prepared, at, announcement, link, logical);
      case PruneOp(at) => if at < db.logical[logical].expiresAt { PruneKeepsMessage(member, db, at, logical); }
      case RollbackOp(other) => RollbackKeepsMessage(db, other, logical);
      case _ =>
        hide Apply;
        SteadyOps(member, limits, db, op);
        SteadyMessage(db, Apply(member, limits, db, op), logical);
    }
  }

  lemma SteadyMessage(db: Db, db': Db, logical: LogicalId)
    requires logical in db.logical && Steady(db, db')
    ensures SameMessage(db, db', logical)
  {
  }

  lemma BeginKeepsMessage(db: Db, id: LogicalId, targetCount: nat, audienceCount: nat, expiresAt: nat, now: nat, logical: LogicalId)
    requires logical in db.logical
    ensures SameMessage(db, After(db, BeginLogical(db, id, targetCount, audienceCount, expiresAt, now)), logical)
  {
    hide BeginLogical, LinkRows;
    BeginDeclares(db, id, targetCount, audienceCount, expiresAt, now);
  }

  lemma CommitKeepsMessage(db: Db, member: MemberId, limits: Limits, op: OperationId, hash: nat, prepared: PreparedObject, at: nat,
    announcement: Option<Announcement>, link: Option<LogicalId>, logical: LogicalId)
    requires Whole(db, logical)
    ensures SameMessage(db, After(db, CommitOutgoing(db, member, limits, op, hash, prepared, at, announcement, link)), logical)
  {
    hide CommitOutgoing, Total;
    CommitLinks(db, member, limits, op, hash, prepared, at, announcement, link);
  }

  // ----- the network -----

  ghost predicate AlignedNet(net: Net) { forall m :: m in net.stores ==> Inv(m, net.stores[m]) && Aligned(net.stores[m]) }

  lemma TransactionsGuarded(db: Db, member: MemberId, limits: Limits, oracle: Oracle, action: Action)
    ensures
      var ops := Transactions(db, member, limits, oracle, action);
      && (|ops| > 0 ==> Guarded(db, ops[0]))
      && (|ops| == 1 && ops[0].PruneOp? ==> action == Host(ops[0]))
  {
    hide PreparedObject.Valid, Manifest.Valid, VerifyTargetReceipt, PutRelayAck, VerifyReceived, Deliverable, VerifyAck,
      Authenticated.ValidateRoster, Roster.ValidateAt, AuthenticateAnnouncement, Incomplete, WellFormed;
  }

  lemma StoreStep(member: MemberId, limits: Limits, db: Db, oracle: Oracle, action: Action)
    requires Inv(member, db) && Aligned(db)
    ensures Aligned(Run(member, limits, db, Transactions(db, member, limits, oracle, action)))
  {
    hide Inv, Aligned, Guarded, Apply, Transactions;
    var ops := Transactions(db, member, limits, oracle, action);
    TransactionsGuarded(db, member, limits, oracle, action);
    TransactionsShape(db, member, limits, oracle, action);
    if |ops| > 0 { OpAligned(member, limits, db, ops[0]); }
    if |ops| == 1 {
      assert ops == [ops[0]];
      RunOne(member, limits, db, ops[0]);
    } else if |ops| == 2 {
      RunTwo(member, limits, db, ops);
      var between := Apply(member, limits, db, ops[0]);
      SteadyOps(member, limits, db, ops[0]);
      SteadyOps(member, limits, between, ops[1]);
      SteadyAligned(db, Apply(member, limits, between, ops[1]));
    }
  }

  lemma StepKeepsMessage(member: MemberId, limits: Limits, db: Db, oracle: Oracle, action: Action, logical: LogicalId)
    requires Inv(member, db) && Aligned(db) && Whole(db, logical)
    ensures
      || (action.Host? && action.op.PruneOp? && db.logical[logical].expiresAt <= action.op.at)
      || SameMessage(db, Run(member, limits, db, Transactions(db, member, limits, oracle, action)), logical)
  {
    hide Inv, Aligned, Guarded, Apply, Transactions, FullyLinked;
    var ops := Transactions(db, member, limits, oracle, action);
    TransactionsGuarded(db, member, limits, oracle, action);
    TransactionsShape(db, member, limits, oracle, action);
    if |ops| == 1 {
      assert ops == [ops[0]];
      RunOne(member, limits, db, ops[0]);
      OpKeepsMessage(member, limits, db, ops[0], logical);
    } else if |ops| == 2 {
      RunTwo(member, limits, db, ops);
      var between := Apply(member, limits, db, ops[0]);
      SteadyOps(member, limits, db, ops[0]);
      SteadyOps(member, limits, between, ops[1]);
    }
  }

  lemma {:induction false} RunAligned(limits: Limits, run: seq<Net>)
    requires IsRun(limits, run)
    ensures AlignedNet(Last(run))
    decreases |run|
  {
    hide Inv, Aligned, Transactions, Signed, Run, Evidence;
    RunSafe(limits, run);
    var last := |run| - 1;
    if last == 0 {
      EmptyAligned();
    } else {
      RunAligned(limits, run[..last]);
      assert Next(limits, run[last - 1], run[last]);
      var who, action :| who in run[last - 1].stores && run[last] == Step(limits, run[last - 1], who, action);
      StoreStep(who, limits, run[last - 1].stores[who], run[last - 1].oracle, action);
    }
  }

  lemma EmptyAligned()
    ensures Aligned(EMPTY)
  {
  }

  /** From step i on the member pruned, at a time when this has expired. */
  ghost predicate PrunedSince(limits: Limits, run: seq<Net>, i: nat, who: MemberId, expiresAt: nat) {
    exists j, at :: i <= j < |run| - 1 && who in run[j].stores && expiresAt <= at && run[j + 1] == Step(limits, run[j], who, Host(PruneOp(at)))
  }

  /** A message with all its audiences stays as it is until it is pruned at its expiry; no rollback takes it back. */
  lemma {:induction false} FullMessageStays(limits: Limits, run: seq<Net>, i: nat, who: MemberId, logical: LogicalId)
    requires IsRun(limits, run) && i < |run| && who in run[i].stores && Whole(run[i].stores[who], logical)
    ensures
      || PrunedSince(limits, run, i, who, run[i].stores[who].logical[logical].expiresAt)
      || (who in Last(run).stores && SameMessage(run[i].stores[who], Last(run).stores[who], logical))
    decreases |run|
  {
    hide Inv, Aligned, Transactions, Signed, Run, FullyLinked, LinkedTo;
    var last := |run| - 1;
    if i < last {
      var prefix := run[..last];
      FullMessageStays(limits, prefix, i, who, logical);
      var row := run[i].stores[who].logical[logical];
      if PrunedSince(limits, prefix, i, who, row.expiresAt) {
        MorePruned(limits, run, i, who, row.expiresAt);
      } else {
        RunAligned(limits, prefix);
        assert Next(limits, run[last - 1], run[last]);
        var actor, action :| actor in run[last - 1].stores && run[last] == Step(limits, run[last - 1], actor, action);
        if actor == who {
          WholeStays(run[i].stores[who], run[last - 1].stores[who], logical);
          StepKeepsMessage(who, limits, run[last - 1].stores[who], run[last - 1].oracle, action, logical);
          if action.Host? && action.op.PruneOp? && row.expiresAt <= action.op.at {
            assert run[last - 1 + 1] == Step(limits, run[last - 1], who, Host(PruneOp(action.op.at)));
          }
        }
      }
    }
  }

  lemma WholeStays(db: Db, db': Db, logical: LogicalId)
    requires Whole(db, logical) && SameMessage(db, db', logical)
    ensures Whole(db', logical)
  {
  }

  lemma MorePruned(limits: Limits, run: seq<Net>, i: nat, who: MemberId, expiresAt: nat)
    requires |run| > 0 && PrunedSince(limits, run[..|run| - 1], i, who, expiresAt)
    ensures PrunedSince(limits, run, i, who, expiresAt)
  {
    hide Step;
    var prefix := run[..|run| - 1];
    var j, at :| i <= j < |prefix| - 1 && who in prefix[j].stores && expiresAt <= at
                 && prefix[j + 1] == Step(limits, prefix[j], who, Host(PruneOp(at)));
    assert run[j + 1] == Step(limits, run[j], who, Host(PruneOp(at)));
  }

  /**
   * Once every audience of a message is queued, an object of it that has left the outbox was pruned at its expiry,
   * or every one of its targets had committed its delivery. Nothing else ends it.
   */
  lemma FullMessageRetires(limits: Limits, run: seq<Net>, i: nat, who: MemberId, logical: LogicalId, id: ObjectId)
    requires IsRun(limits, run) && i < |run| && who in run[i].stores && Whole(run[i].stores[who], logical)
    requires id in LinkedTo(run[i].stores[who], logical)
    ensures
      || PrunedSince(limits, run, i, who, id.manifest.expiresAt)
      || (who in Last(run).stores && id in Last(run).stores[who].outbox)
      || (forall t :: t in id.manifest.targets ==> TargetCommitted(run, id, t))
  {
    hide Inv, Step, FullyLinked, TargetCommitted, AllConfirmed, Next, Initial, Evidence, Witnessed;
    FullMessageStays(limits, run, i, who, logical);
    RunAligned(limits, run[..i + 1]);
    assert Aligned(run[i].stores[who]);
    if !PrunedSince(limits, run, i, who, id.manifest.expiresAt) {
      RunSafe(limits, run);
      if id !in Last(run).stores[who].outbox {
        LinkedConfirmed(who, Last(run).stores[who], logical, id);
        ConfirmedCommitted(limits, run, who, id);
      }
    }
  }
}
