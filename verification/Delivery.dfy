/**
 * Progress: from every reachable state of the network, whatever happened before, a committed object can still be delivered to a target
 * that has room for it. Announcement, chunks, delivery, receipt and acknowledgement follow one another, and none of them is refused.
 */
module Deliveries {
  import opened Types
  import opened Protocol
  import opened Tables
  import opened TablesInvariant
  import opened StoreRuns
  import opened Network
  import opened NetworkSafety
  import opened NetworkOrigins
  import opened Effects
  import Draining
  import RelayCaches

  /** What sender and target share: one roster, the time, and what opening the object yields. */
  datatype Terms = Terms(roster: Roster, envelope: Envelope, relayId: nat, at: nat)

  predicate Certified(c: Terms, x: MemberId) {
    x in c.roster.members && c.roster.members[x].validFrom <= c.at < c.roster.members[x].validUntil
  }

  /** The roster is live and certifies the origin and every target; the object is live, of this group and epoch, and a text. */
  predicate Fair(c: Terms, a: Announcement) {
    && RosterLive(c.roster, c.at) && LiveAt(a.manifest.expiresAt, c.at) && c.envelope.created <= c.at
    && a.manifest.Valid() && a.group == c.roster.scope.group && a.manifest.epoch == c.roster.scope.epoch
    && a.manifest.namespace == "mesh.chat.text.v1"
    && Certified(c, a.manifest.origin) && c.roster.members[a.manifest.origin].key == a.manifest.origin
    && forall x :: x in a.manifest.targets ==> Certified(c, x)
  }

  function Genuine(c: Terms, a: Announcement): Authenticated { Authenticated(a, c.roster.scope, c.roster.digest) }

  /** The frame under which the origin sends the object. */
  function Sent(c: Terms, m: Manifest): RelayFrame { RelayCaches.RelayFrame(c.relayId, m.origin, m.origin, 0, m.hopLimit, m.expiresAt) }

  /** The frame under which a target sends its receipt. */
  function Returned(c: Terms, m: Manifest, t: MemberId): RelayFrame { Sent(c, m).(origin := t, previousHop := t) }

  lemma Authentic(c: Terms, a: Announcement, oracle: Oracle)
    requires Fair(c, a) && a in oracle.announcements
    ensures AuthenticateAnnouncement(a, c.roster, c.at, oracle) == Ok(Genuine(c, a))
    ensures Genuine(c, a).ValidateRoster(c.roster, c.at) == Ok(())
  {
    hide Manifest.Valid;
  }

  // ----- the announcement -----

  /** The target has never heard of the object and has room for it. */
  ghost predicate Untouched(db: Db, limits: Limits, m: Manifest) { m.Id() !in db.objects && HasRoom(db, limits, m) }

  /** The target has the announcement and the first chunks, and nothing else of the object. */
  ghost predicate Received(db: Db, a: Announcement, n: nat) {
    var id := a.manifest.Id();
    && id in db.objects && id in db.announcements && db.announcements[id] == a
    && (forall i: nat :: (id, i) in db.chunks <==> i < n)
    && id !in db.localDeliveries && id !in db.deliveries
    && (n < |a.manifest.hashes| ==> id !in db.relayMetadata)
    && (n == |a.manifest.hashes| ==> db.objects[id].complete)
  }

  function Announcing(c: Terms, a: Announcement): Action {
    Accept(Sent(c, a.manifest), AnnouncementRecord(a), a.manifest.origin, Err(NotFound), c.roster, false, c.at)
  }

  function AnnouncingOp(c: Terms, a: Announcement): Op { AnnounceAuthenticatedOp(Genuine(c, a), c.roster, c.at) }

  lemma AnnouncingIs(c: Terms, a: Announcement, limits: Limits, t: MemberId, db: Db, oracle: Oracle)
    requires Fair(c, a) && a in oracle.announcements
    ensures Transactions(db, t, limits, oracle, Announcing(c, a)) == [AnnouncingOp(c, a)]
    ensures Signed(db, t, limits, oracle, Announcing(c, a)) == oracle
  {
    Authentic(c, a, oracle);
    hide Manifest.Valid, AuthenticateAnnouncement, Fair;
  }

  lemma AnnouncementArrives(c: Terms, a: Announcement, limits: Limits, t: MemberId, db: Db)
    requires Inv(t, db) && Fair(c, a) && Untouched(db, limits, a.manifest)
    ensures Inv(t, Apply(t, limits, db, AnnouncingOp(c, a))) && Received(Apply(t, limits, db, AnnouncingOp(c, a)), a, 0)
  {
    hide Inv, AnnounceAuthenticated, HasRoom, Manifest.Valid, Persists, Fair;
    FairMeans(c, a);
    ApplyKeeps(t, limits, db, AnnouncingOp(c, a));
    AnnounceEffect(t, db, limits, Genuine(c, a), c.roster, c.at);
    NothingOf(t, db, a.manifest.Id());
    var db', id := Apply(t, limits, db, AnnouncingOp(c, a)), a.manifest.Id();
    assert AnnounceAuthenticated(db, limits, Genuine(c, a), c.roster, c.at).Done?;
    assert id in db'.objects && id in db'.announcements && db'.announcements[id] == a;
    assert forall i: nat :: (id, i) !in db'.chunks;
    assert id !in db'.localDeliveries && id !in db'.deliveries && id !in db'.relayMetadata;
    assert Received(db', a, 0);
  }

  lemma FairMeans(c: Terms, a: Announcement)
    requires Fair(c, a)
    ensures RosterLive(c.roster, c.at) && LiveAt(a.manifest.expiresAt, c.at) && a.manifest.Valid() && |a.manifest.hashes| > 0
  {
  }

  /** Nothing in any table belongs to an object that is not stored. */
  lemma NothingOf(member: MemberId, db: Db, id: ObjectId)
    requires Inv(member, db) && id !in db.objects
    ensures forall k :: k in db.chunks ==> k.0 != id
    ensures id !in db.relayMetadata && id !in db.localDeliveries && id !in db.deliveries && id !in db.announcements
  {
    hide ObjectsOk, CompleteOk, OperationsOk, OutboxOk, ReceiptsOk, LinksOk, Manifest.Fits, FrameBound;
  }

  // ----- the chunks -----

  function Custodian(c: Terms, a: Announcement): RelayMetadata { RelayMetadata(Sent(c, a.manifest), a.manifest.origin) }

  function ChunkOp(c: Terms, a: Announcement, i: nat, bytes: Bytes): Op {
    PutChunkOp(a.manifest.Id(), i, bytes, c.at, Some(Custodian(c, a)))
  }

  function Chunking(c: Terms, a: Announcement, i: nat, bytes: Bytes): Action {
    Accept(Sent(c, a.manifest), ChunkRecord(a.manifest.Id(), i, bytes), a.manifest.origin, Err(NotFound), c.roster, false, c.at)
  }

  lemma ChunkingIs(c: Terms, a: Announcement, limits: Limits, t: MemberId, db: Db, oracle: Oracle, n: nat, bytes: Bytes)
    requires Inv(t, db) && Received(db, a, n)
    ensures Transactions(db, t, limits, oracle, Chunking(c, a, n, bytes)) == [ChunkOp(c, a, n, bytes)]
    ensures Signed(db, t, limits, oracle, Chunking(c, a, n, bytes)) == oracle
  {
    hide Inv, Manifest.Valid;
    RowOf(t, db, a.manifest.Id());
  }

  lemma ChunkTakeable(c: Terms, a: Announcement, t: MemberId, db: Db, n: nat, bytes: Bytes)
    requires Fair(c, a) && Received(db, a, n) && n < |a.manifest.hashes| && a.manifest.Fits(n, bytes)
    ensures Takeable(db, t, a.manifest.Id(), n, bytes, c.at, Some(Custodian(c, a)))
    ensures Completes(db, a.manifest.Id(), n) <==> n + 1 == |a.manifest.hashes|
  {
    FrameFits(c, a);
    hide Manifest.Fits, Manifest.Valid, FrameBound;
    assert n + 1 < |a.manifest.hashes| ==> (a.manifest.Id(), n + 1) !in db.chunks;
  }

  lemma OneMoreReceived(c: Terms, a: Announcement, t: MemberId, db: Db, db': Db, n: nat, bytes: Bytes)
    requires Received(db, a, n) && n < |a.manifest.hashes|
    requires Completes(db, a.manifest.Id(), n) <==> n + 1 == |a.manifest.hashes|
    requires StoresChunk(db, db', t, a.manifest.Id(), n, bytes, c.at, Some(Custodian(c, a)))
    ensures Received(db', a, n + 1)
  {
    hide Completes, Gains;
  }

  /** The next chunk is taken, and the last one makes the object whole. */
  lemma ChunkArrives(c: Terms, a: Announcement, limits: Limits, t: MemberId, db: Db, n: nat, bytes: Bytes)
    requires Inv(t, db) && Fair(c, a) && Received(db, a, n) && n < |a.manifest.hashes| && a.manifest.Fits(n, bytes)
    ensures Inv(t, Apply(t, limits, db, ChunkOp(c, a, n, bytes))) && Received(Apply(t, limits, db, ChunkOp(c, a, n, bytes)), a, n + 1)
  {
    hide Inv, Persists, PutChunk, Manifest.Fits, Fair, Completes, Takeable, StoresChunk, Received;
    ApplyKeeps(t, limits, db, ChunkOp(c, a, n, bytes));
    ChunkTakeable(c, a, t, db, n, bytes);
    PutChunkEffect(db, t, a.manifest.Id(), n, bytes, c.at, Some(Custodian(c, a)));
    assert a.manifest.Id() in db.objects by { InReceived(db, a, n); }
    OneMoreReceived(c, a, t, db, Apply(t, limits, db, ChunkOp(c, a, n, bytes)), n, bytes);
  }

  lemma InReceived(db: Db, a: Announcement, n: nat)
    requires Received(db, a, n)
    ensures a.manifest.Id() in db.objects
  {
  }

  lemma FrameFits(c: Terms, a: Announcement)
    requires Fair(c, a)
    ensures FrameBound(Sent(c, a.manifest), a.manifest) && Sent(c, a.manifest).hopLimit > 0
  {
  }

  // ----- the delivery -----

  function Finalizing(c: Terms, a: Announcement, t: MemberId, signature: nat): Action
    requires t in c.roster.members
  {
    FinalizeText(a.manifest.Id(), Ok(c.envelope), true, c.roster, c.roster.members[t].key, signature, c.at)
  }

  function Proof(c: Terms, a: Announcement, t: MemberId): VerifiedDelivery
    requires t in c.roster.members
  {
    VerifiedDelivery(Genuine(c, a), t, c.roster.members[t].key, c.envelope.context, c.at, Min(a.manifest.expiresAt, c.roster.validUntil))
  }

  /** The receipt that the target signs. */
  function Issued(c: Terms, a: Announcement, t: MemberId, signature: nat): Receipt {
    Receipt(c.roster.scope, c.envelope.context, a.manifest.Id(), a.manifest.origin, a.manifest.sequence, t, c.at, signature)
  }

  function FinalizingOp(c: Terms, a: Announcement, t: MemberId, signature: nat): Op
    requires t in c.roster.members
  {
    FinalizeOp(Proof(c, a, t), c.roster, c.roster.members[t].key, signature, c.at)
  }

  /** Whatever a store holds under the announcement verifies again. */
  lemma StoredVerifies(c: Terms, a: Announcement, member: MemberId, db: Db, oracle: Oracle)
    requires Inv(member, db) && Fair(c, a) && a in oracle.announcements
    requires a.manifest.Id() in db.announcements && db.announcements[a.manifest.Id()] == a && AllChunks(a.manifest.Id(), db.chunks)
    ensures StoredAnnouncement(db, a.manifest.Id(), c.roster, c.at, oracle) == Ok(Genuine(c, a))
    ensures ChunkError(db, a.manifest.Id(), a.manifest, 0).None?
  {
    hide Inv, AuthenticateAnnouncement, ChunkError, Manifest.Valid, AllChunks, Fair;
    Authentic(c, a, oracle);
    AnnouncedStored(member, db, a.manifest.Id());
    RowOf(member, db, a.manifest.Id());
    WholeOrNot(member, db, a.manifest.Id());
  }

  lemma FinalizingIs(c: Terms, a: Announcement, limits: Limits, t: MemberId, db: Db, oracle: Oracle, signature: nat)
    requires Inv(t, db) && Fair(c, a) && a in oracle.announcements && t in a.manifest.targets && t != a.manifest.origin
    requires Received(db, a, |a.manifest.hashes|)
    ensures t in c.roster.members
    ensures Transactions(db, t, limits, oracle, Finalizing(c, a, t, signature)) == [FinalizingOp(c, a, t, signature)]
  {
    assert Certified(c, t);
    hide Inv, VerifyReceived, Deliverable, Fair, Received, Transactions;
    TargetVerifies(c, a, t, db, oracle);
    TargetIsDeliverable(c, a, t, db);
    FinalizeTransactions(db, t, limits, oracle, a.manifest.Id(), c, signature);
  }

  lemma FinalizeTransactions(db: Db, t: MemberId, limits: Limits, oracle: Oracle, id: ObjectId, c: Terms, signature: nat)
    requires t in c.roster.members
    ensures
      var key, proof := c.roster.members[t].key, VerifyReceived(db, t, id, Ok(c.envelope), true, c.roster, c.at, oracle);
      Transactions(db, t, limits, oracle, FinalizeText(id, Ok(c.envelope), true, c.roster, key, signature, c.at)) ==
        if Deliverable(db, t, id, c.at) && proof.Ok? then [FinalizeOp(proof.value, c.roster, key, signature, c.at)] else []
  {
    hide VerifyReceived, Deliverable;
  }

  lemma TargetVerifies(c: Terms, a: Announcement, t: MemberId, db: Db, oracle: Oracle)
    requires Inv(t, db) && Fair(c, a) && a in oracle.announcements && t in a.manifest.targets && t in c.roster.members
    requires Received(db, a, |a.manifest.hashes|)
    ensures VerifyReceived(db, t, a.manifest.Id(), Ok(c.envelope), true, c.roster, c.at, oracle) == Ok(Proof(c, a, t))
  {
    assert AllChunks(a.manifest.Id(), db.chunks);
    DeliveryVerifies(c, a, t);
    hide Inv, ChunkError, StoredAnnouncement, VerifyDelivery, Fair, AllChunks;
    StoredVerifies(c, a, t, db, oracle);
  }

  lemma DeliveryVerifies(c: Terms, a: Announcement, t: MemberId)
    requires Fair(c, a) && t in a.manifest.targets && t in c.roster.members
    ensures VerifyDelivery(Genuine(c, a), Ok(c.envelope), true, c.roster, t, c.at) == Ok(Proof(c, a, t))
  {
    hide Manifest.Valid;
    Validated(c, a);
  }

  lemma TargetIsDeliverable(c: Terms, a: Announcement, t: MemberId, db: Db)
    requires Inv(t, db) && Fair(c, a) && t in a.manifest.targets && t != a.manifest.origin && Received(db, a, |a.manifest.hashes|)
    ensures Deliverable(db, t, a.manifest.Id(), c.at)
  {
    hide Inv, Manifest.Valid;
    RowOf(t, db, a.manifest.Id());
  }

  lemma Validated(c: Terms, a: Announcement)
    requires RosterLive(c.roster, c.at)
    ensures Genuine(c, a).ValidateRoster(c.roster, c.at) == Ok(())
  {
  }

  lemma FinalizingSigns(c: Terms, a: Announcement, limits: Limits, t: MemberId, db: Db, oracle: Oracle, signature: nat)
    requires t in c.roster.members
    requires Transactions(db, t, limits, oracle, Finalizing(c, a, t, signature)) == [FinalizingOp(c, a, t, signature)]
    ensures
      var o := FinalizeReceived(db, t, Proof(c, a, t), c.roster, c.roster.members[t].key, signature, c.at);
      o.Done? ==> Signed(db, t, limits, oracle, Finalizing(c, a, t, signature)) == oracle.(receipts := oracle.receipts + {o.value.receipt})
  {
    hide Transactions, FinalizeReceived;
  }

  lemma FinalizingApplies(c: Terms, a: Announcement, limits: Limits, t: MemberId, db: Db, signature: nat)
    requires t in c.roster.members
    ensures Apply(t, limits, db, FinalizingOp(c, a, t, signature))
         == After(db, FinalizeReceived(db, t, Proof(c, a, t), c.roster, c.roster.members[t].key, signature, c.at))
  {
    hide FinalizeReceived;
  }

  /** The target delivers, and its receipt is signed. */
  lemma TargetDelivers(c: Terms, a: Announcement, limits: Limits, t: MemberId, db: Db, oracle: Oracle, signature: nat)
    requires Inv(t, db) && Fair(c, a) && a in oracle.announcements && t in a.manifest.targets && t != a.manifest.origin
    requires Received(db, a, |a.manifest.hashes|) && t in c.roster.members
    ensures
      var db', id := Apply(t, limits, db, FinalizingOp(c, a, t, signature)), a.manifest.Id();
      && Inv(t, db') && id in db'.deliveries && db'.deliveries[id] == Issued(c, a, t, signature)
      && Signed(db, t, limits, oracle, Finalizing(c, a, t, signature))
           == oracle.(receipts := oracle.receipts + {Issued(c, a, t, signature)})
  {
    hide Inv, Persists, FinalizeReceived, Fair, Transactions, Signed, Received, Apply;
    FinalizingIs(c, a, limits, t, db, oracle, signature);
    FinalizingApplies(c, a, limits, t, db, signature);
    FinalizingSigns(c, a, limits, t, db, oracle, signature);
    ApplyKeeps(t, limits, db, FinalizingOp(c, a, t, signature));
    TargetIssues(c, a, t, db, signature);
  }

  lemma TargetIssues(c: Terms, a: Announcement, t: MemberId, db: Db, signature: nat)
    requires Inv(t, db) && Fair(c, a) && Received(db, a, |a.manifest.hashes|) && t in c.roster.members
    ensures
      var o := FinalizeReceived(db, t, Proof(c, a, t), c.roster, c.roster.members[t].key, signature, c.at);
      && o.Done? && o.value.receipt == Issued(c, a, t, signature)
      && a.manifest.Id() in o.db.deliveries && o.db.deliveries[a.manifest.Id()] == Issued(c, a, t, signature)
  {
    WholeFinalizable(c, a, t, db);
    hide Inv, FinalizeReceived, Fair, Finalizable, Received, OnlyTouches;
    FinalizeEffect(db, t, Proof(c, a, t), c.roster, c.roster.members[t].key, signature, c.at);
  }

  lemma WholeFinalizable(c: Terms, a: Announcement, t: MemberId, db: Db)
    requires Fair(c, a) && Received(db, a, |a.manifest.hashes|) && t in c.roster.members
    ensures Finalizable(db, t, Proof(c, a, t), c.roster, c.roster.members[t].key, c.at) && a.manifest.Id() !in db.deliveries
  {
    hide Manifest.Valid;
  }

  // ----- the receipt at the origin -----

  /** The origin has committed the object under this announcement and holds no receipt of the target. */
  ghost predicate Awaits(db: Db, a: Announcement, t: MemberId) {
    var id := a.manifest.Id();
    && Committed(db.operations, id) && id in db.announcements && db.announcements[id] == a
    && (id, t) !in db.targetReceipts && (id, t) !in db.originAcks
  }

  function Proven(c: Terms, a: Announcement, t: MemberId, signature: nat): VerifiedReceipt {
    VerifiedReceipt(Issued(c, a, t, signature), a, c.roster.digest)
  }

  function RecordingOp(c: Terms, a: Announcement, t: MemberId, signature: nat): Op { RecordReceiptOp(Proven(c, a, t, signature), c.roster, c.at) }

  function Recording(c: Terms, a: Announcement, t: MemberId, signature: nat): Action {
    Accept(Returned(c, a.manifest, t), ReceiptRecord(Issued(c, a, t, signature)), t, Ok(c.envelope), c.roster, false, c.at)
  }

  lemma CommittedIsWhole(o: MemberId, db: Db, id: ObjectId)
    requires Inv(o, db) && Committed(db.operations, id)
    ensures id in db.objects && db.objects[id].complete && AllChunks(id, db.chunks)
  {
    hide ChunksOk, ModesOk, RelayOk, DeliveriesOk, ReceiptsOk, OutboxOk, LinksOk, Manifest.Valid, SameSlot;
    var op :| op in db.operations && db.operations[op].objectId == Some(id);
    assert Claims(o, db.objects, db.operations[op], id);
    assert db.objects[id].manifest.Id() == id;
  }

  lemma ReceiptVerifies(c: Terms, a: Announcement, t: MemberId, signature: nat, oracle: Oracle)
    requires Fair(c, a) && t in a.manifest.targets && Issued(c, a, t, signature) in oracle.receipts
    ensures VerifyReceipt(Issued(c, a, t, signature), Genuine(c, a), Ok(c.envelope), c.roster, c.at, oracle) == Ok(Proven(c, a, t, signature))
  {
    assert Certified(c, t);
    hide Manifest.Valid;
    Validated(c, a);
  }

  lemma OriginVerifies(c: Terms, a: Announcement, t: MemberId, signature: nat, o: MemberId, db: Db, oracle: Oracle)
    requires Inv(o, db) && Fair(c, a) && t in a.manifest.targets && a in oracle.announcements && Issued(c, a, t, signature) in oracle.receipts
    requires Committed(db.operations, a.manifest.Id()) && a.manifest.Id() in db.announcements && db.announcements[a.manifest.Id()] == a
    ensures VerifyTargetReceipt(db, a.manifest.Id(), Issued(c, a, t, signature), Ok(c.envelope), c.roster, c.at, oracle)
         == Ok(Proven(c, a, t, signature))
  {
    hide Inv, Fair, StoredAnnouncement, ChunkError, VerifyReceipt, AllChunks, Committed;
    CommittedIsWhole(o, db, a.manifest.Id());
    StoredVerifies(c, a, o, db, oracle);
    ReceiptVerifies(c, a, t, signature, oracle);
  }

  lemma RecordingIs(c: Terms, a: Announcement, limits: Limits, t: MemberId, signature: nat, o: MemberId, db: Db, oracle: Oracle)
    requires Inv(o, db) && Fair(c, a) && t in a.manifest.targets && a in oracle.announcements && Issued(c, a, t, signature) in oracle.receipts
    requires o == a.manifest.origin && Awaits(db, a, t)
    ensures Transactions(db, o, limits, oracle, Recording(c, a, t, signature)) == [RecordingOp(c, a, t, signature)]
    ensures Signed(db, o, limits, oracle, Recording(c, a, t, signature)) == oracle
  {
    hide Inv, Fair, VerifyTargetReceipt, Committed, AllChunks;
    OriginVerifies(c, a, t, signature, o, db, oracle);
    CommittedIsWhole(o, db, a.manifest.Id());
    RowOf(o, db, a.manifest.Id());
    ReceiptTransactions(db, o, limits, oracle, Recording(c, a, t, signature));
    hide Transactions, Signed;
  }

  lemma ReceiptTransactions(db: Db, o: MemberId, limits: Limits, oracle: Oracle, action: Action)
    requires action.Accept? && action.record.ReceiptRecord?
    ensures Transactions(db, o, limits, oracle, action) ==
              AcceptReceipt(db, o, action.frame, action.record.receipt, action.receivedFrom, action.envelope, action.roster, action.at, oracle)
    ensures Signed(db, o, limits, oracle, action) == oracle
  {
    hide AcceptReceipt;
  }

  /** The origin records the receipt; its entry stays in the outbox just while another target has not confirmed. */
  lemma OriginRecords(c: Terms, a: Announcement, limits: Limits, t: MemberId, signature: nat, o: MemberId, db: Db)
    requires Inv(o, db) && Fair(c, a) && t in a.manifest.targets && o == a.manifest.origin && Awaits(db, a, t)
    ensures
      var db', id := Apply(o, limits, db, RecordingOp(c, a, t, signature)), a.manifest.Id();
      && Inv(o, db') && OnlyTouches(db, db', {TargetReceipts, Outbox})
      && Sets(db.targetReceipts, db'.targetReceipts, (id, t), Issued(c, a, t, signature))
      && (id in db'.outbox <==> exists x :: x in a.manifest.targets && (id, x) !in db'.targetReceipts)
      && (forall other :: other != id ==> (other in db'.outbox <==> other in db.outbox))
  {
    hide Inv, Persists, RecordTargetReceipt, Fair, Committed, ConfirmedTargets, OnlyTouches, AllChunks;
    FairMeans(c, a);
    ApplyKeeps(o, limits, db, RecordingOp(c, a, t, signature));
    CommittedIsWhole(o, db, a.manifest.Id());
    RecordReceiptEffect(db, o, Proven(c, a, t, signature), c.roster, c.at);
    assert Recordable(db, o, Proven(c, a, t, signature), c.roster, c.at);
  }

  // ----- the acknowledgement -----

  function Answer(c: Terms, a: Announcement, t: MemberId, signature: nat, ackSignature: nat): Ack {
    Ack(c.roster.scope, ReceiptId(Issued(c, a, t, signature)), a.manifest.Id(), a.manifest.origin, t, c.at, ackSignature)
  }

  function Acking(c: Terms, a: Announcement, t: MemberId, ackSignature: nat): Action {
    DrainAck(a.manifest.Id(), t, Ok(c.envelope), c.roster, a.manifest.origin, ackSignature, c.at)
  }

  function AckingOp(c: Terms, a: Announcement, t: MemberId, ackSignature: nat, oracle: Oracle): Op {
    OriginAckOp(a.manifest.Id(), t, Ok(c.envelope), c.roster, a.manifest.origin, ackSignature, c.at, oracle)
  }

  lemma AckingIs(c: Terms, a: Announcement, limits: Limits, t: MemberId, ackSignature: nat, o: MemberId, db: Db, oracle: Oracle)
    ensures Transactions(db, o, limits, oracle, Acking(c, a, t, ackSignature)) == [AckingOp(c, a, t, ackSignature, oracle)]
    ensures
      var r := OriginReceiptAck(db, o, a.manifest.Id(), t, Ok(c.envelope), c.roster, a.manifest.origin, ackSignature, c.at, oracle);
      && Apply(o, limits, db, AckingOp(c, a, t, ackSignature, oracle)) == After(db, r)
      && (r.Done? ==> Signed(db, o, limits, oracle, Acking(c, a, t, ackSignature)) == oracle.(acks := oracle.acks + {r.value}))
  {
    hide OriginReceiptAck;
  }

  /** The origin answers the receipt it has just recorded. */
  lemma OriginAnswers(c: Terms, a: Announcement, limits: Limits, t: MemberId, signature: nat, ackSignature: nat, o: MemberId, db: Db, oracle: Oracle)
    requires Inv(o, db) && Fair(c, a) && t in a.manifest.targets && a in oracle.announcements && Issued(c, a, t, signature) in oracle.receipts
    requires o == a.manifest.origin && Committed(db.operations, a.manifest.Id())
    requires a.manifest.Id() in db.announcements && db.announcements[a.manifest.Id()] == a
    requires (a.manifest.Id(), t) in db.targetReceipts && db.targetReceipts[(a.manifest.Id(), t)] == Issued(c, a, t, signature)
    requires (a.manifest.Id(), t) !in db.originAcks
    ensures
      var r := OriginReceiptAck(db, o, a.manifest.Id(), t, Ok(c.envelope), c.roster, a.manifest.origin, ackSignature, c.at, oracle);
      && r.Done? && r.value == Answer(c, a, t, signature, ackSignature)
      && OnlyTouches(db, r.db, {OriginAcks}) && SameBut(db.originAcks, r.db.originAcks, (a.manifest.Id(), t))
  {
    hide Inv, VerifyTargetReceipt, Committed, OnlyTouches, Manifest.Valid;
    assert Certified(c, o) && c.roster.members[o].key == o && RosterLive(c.roster, c.at);
    hide Fair;
    OriginVerifies(c, a, t, signature, o, db, oracle);
    if OriginReceiptAck(db, o, a.manifest.Id(), t, Ok(c.envelope), c.roster, a.manifest.origin, ackSignature, c.at, oracle).Done? {
      OriginAckEffect(db, o, a.manifest.Id(), t, Ok(c.envelope), c.roster, a.manifest.origin, ackSignature, c.at, oracle);
    }
  }

  function Closing(c: Terms, a: Announcement, t: MemberId, signature: nat, ackSignature: nat): Action {
    Accept(Sent(c, a.manifest), AckRecord(Answer(c, a, t, signature, ackSignature)), a.manifest.origin, Err(NotFound), c.roster, false, c.at)
  }

  function ClosingOp(c: Terms, a: Announcement, t: MemberId, signature: nat, ackSignature: nat): Op {
    RecordAckOp(Answer(c, a, t, signature, ackSignature), c.roster, c.at)
  }

  lemma ClosingIs(c: Terms, a: Announcement, limits: Limits, t: MemberId, signature: nat, ackSignature: nat, db: Db, oracle: Oracle)
    requires Fair(c, a) && Answer(c, a, t, signature, ackSignature) in oracle.acks
    ensures Transactions(db, t, limits, oracle, Closing(c, a, t, signature, ackSignature)) == [ClosingOp(c, a, t, signature, ackSignature)]
    ensures Signed(db, t, limits, oracle, Closing(c, a, t, signature, ackSignature)) == oracle
  {
    hide Manifest.Valid;
    assert VerifyAck(Answer(c, a, t, signature, ackSignature), c.roster, c.at, oracle).Ok?;
    hide VerifyAck, Fair;
  }

  /** The target records the acknowledgement of its receipt. */
  lemma TargetCloses(c: Terms, a: Announcement, limits: Limits, t: MemberId, signature: nat, ackSignature: nat, db: Db)
    requires Inv(t, db) && Fair(c, a)
    requires a.manifest.Id() in db.deliveries && db.deliveries[a.manifest.Id()] == Issued(c, a, t, signature)
    ensures
      var db', id := Apply(t, limits, db, ClosingOp(c, a, t, signature, ackSignature)), a.manifest.Id();
      && db'.deliveries == db.deliveries && id in db'.acknowledged && db'.acknowledged[id].receiptId == ReceiptId(Issued(c, a, t, signature))
  {
    hide Inv, RecordReceiptAck, Fair;
    AcknowledgedOwn(t, db, a.manifest.Id());
    FairMeans(c, a);
    RecordAckEffect(db, t, Answer(c, a, t, signature, ackSignature), c.roster, c.at);
  }

  lemma AcknowledgedOwn(t: MemberId, db: Db, id: ObjectId)
    requires Inv(t, db) && id in db.deliveries
    ensures id in db.acknowledged ==> db.acknowledged[id].receiptId == ReceiptId(db.deliveries[id])
  {
    hide ObjectsOk, ChunksOk, CompleteOk, ModesOk, RelayOk, OperationsOk, ReceiptsOk, OutboxOk, LinksOk;
  }

  // ----- one after the other -----

  /** The origin has queued the object; the target has room for it, has never heard of it and has not confirmed it. */
  ghost predicate Pending(net: Net, limits: Limits, c: Terms, a: Announcement, t: MemberId) {
    var o := a.manifest.origin;
    && Fair(c, a) && o in net.stores && t in net.stores && t != o && t in a.manifest.targets
    && Awaits(net.stores[o], a, t) && Untouched(net.stores[t], limits, a.manifest)
  }

  /** A further net of the run: one member's store and the oracle moved on. */
  lemma OneStep(limits: Limits, run: seq<Net>, who: MemberId, action: Action, op: Op, oracle: Oracle) returns (longer: seq<Net>)
    requires IsRun(limits, run) && who in Last(run).stores
    requires Transactions(Last(run).stores[who], who, limits, Last(run).oracle, action) == [op]
    requires Signed(Last(run).stores[who], who, limits, Last(run).oracle, action) == oracle
    ensures IsRun(limits, longer) && run <= longer
    ensures Last(longer) == Net(Last(run).stores[who := Apply(who, limits, Last(run).stores[who], op)], oracle)
  {
    hide Transactions, Signed, Apply;
    RunOne(who, limits, Last(run).stores[who], op);
    NextSafe(limits, run, who, action);
    longer := run + [Step(limits, Last(run), who, action)];
  }

  /** The whole object reaches the target: its announcement and, one after the other, its chunks. */
  lemma ObjectArrives(limits: Limits, run: seq<Net>, c: Terms, a: Announcement, t: MemberId) returns (longer: seq<Net>)
    requires IsRun(limits, run) && Pending(Last(run), limits, c, a, t) && a in Last(run).oracle.announcements
    ensures IsRun(limits, longer) && run <= longer && t in Last(longer).stores
    ensures Last(longer) == Net(Last(run).stores[t := Last(longer).stores[t]], Last(run).oracle)
    ensures Received(Last(longer).stores[t], a, |a.manifest.hashes|)
  {
    hide Inv, Transactions, Signed, Apply, Fair, Received, Committed, Untouched, Evidence, Witnessed, Initial, Next;
    var net := Last(run);
    RunSafe(limits, run);
    AnnouncingIs(c, a, limits, t, net.stores[t], net.oracle);
    AnnouncementArrives(c, a, limits, t, net.stores[t]);
    longer := OneStep(limits, run, t, Announcing(c, a), AnnouncingOp(c, a), net.oracle);
    var first := longer;
    longer := ChunksArrive(limits, first, c, a, t, 0);
  }

  lemma {:induction false} ChunksArrive(limits: Limits, run: seq<Net>, c: Terms, a: Announcement, t: MemberId, n: nat) returns (longer: seq<Net>)
    requires IsRun(limits, run) && Fair(c, a) && a.manifest.origin in Last(run).stores && t in Last(run).stores && t != a.manifest.origin
    requires Committed(Last(run).stores[a.manifest.origin].operations, a.manifest.Id())
    requires Received(Last(run).stores[t], a, n) && n <= |a.manifest.hashes|
    ensures IsRun(limits, longer) && run <= longer && t in Last(longer).stores
    ensures Last(longer) == Net(Last(run).stores[t := Last(longer).stores[t]], Last(run).oracle)
    ensures Received(Last(longer).stores[t], a, |a.manifest.hashes|)
    decreases |a.manifest.hashes| - n
  {
    hide Inv, Transactions, Signed, Apply, Fair, Received, Evidence, Witnessed, Initial, Next, Committed;
    longer := run;
    if n < |a.manifest.hashes| {
      var net, o := Last(run), a.manifest.origin;
      RunSafe(limits, run);
      var bytes := OriginChunk(o, net.stores[o], a.manifest.Id(), n);
      ChunkingIs(c, a, limits, t, net.stores[t], net.oracle, n, bytes);
      ChunkArrives(c, a, limits, t, net.stores[t], n, bytes);
      longer := OneStep(limits, run, t, Chunking(c, a, n, bytes), ChunkOp(c, a, n, bytes), net.oracle);
      var next := longer;
      longer := ChunksArrive(limits, next, c, a, t, n + 1);
    }
  }

  lemma OriginChunk(o: MemberId, db: Db, id: ObjectId, n: nat) returns (bytes: Bytes)
    requires Inv(o, db) && Committed(db.operations, id) && n < |id.manifest.hashes|
    ensures id.manifest.Fits(n, bytes)
  {
    CommittedIsWhole(o, db, id);
    RowOf(o, db, id);
    hide CompleteOk, ModesOk, RelayOk, DeliveriesOk, OperationsOk, ReceiptsOk, OutboxOk, LinksOk, Manifest.Fits, Manifest.Valid, SameSlot;
    assert (id, n) in db.chunks;
    bytes := db.chunks[(id, n)];
  }

  /** The target has delivered and been acknowledged; the origin has recorded that; no other store has changed. */
  ghost predicate Finished(net: Net, net': Net, a: Announcement, t: MemberId, r: Receipt) {
    var o, id := a.manifest.origin, a.manifest.Id();
    && o in net.stores && t in net.stores && net'.stores.Keys == net.stores.Keys
    && (forall m :: m in net.stores && m != o && m != t ==> net'.stores[m] == net.stores[m])
    && id in net'.stores[t].deliveries && net'.stores[t].deliveries[id] == r
    && id in net'.stores[t].acknowledged && net'.stores[t].acknowledged[id].receiptId == ReceiptId(r)
    && OnlyTouches(net.stores[o], net'.stores[o], {TargetReceipts, Outbox, OriginAcks})
    && Sets(net.stores[o].targetReceipts, net'.stores[o].targetReceipts, (id, t), r)
    && SameBut(net.stores[o].originAcks, net'.stores[o].originAcks, (id, t))
    && (id in net'.stores[o].outbox <==> exists x :: x in a.manifest.targets && (id, x) !in net'.stores[o].targetReceipts)
  }

  /**
   * From every reachable state: the run goes on to one in which the target has delivered the object, the origin has recorded
   * exactly the receipt the target signed and keeps the object in its outbox just for other targets, and the target knows it.
   */
  lemma DeliveryCompletes(limits: Limits, run: seq<Net>, c: Terms, a: Announcement, t: MemberId, signature: nat, ackSignature: nat)
    returns (longer: seq<Net>)
    requires IsRun(limits, run) && Pending(Last(run), limits, c, a, t)
    ensures IsRun(limits, longer) && run <= longer && Finished(Last(run), Last(longer), a, t, Issued(c, a, t, signature))
  {
    hide Inv, Transactions, Signed, Apply, Fair, Received, Untouched, Evidence, Witnessed, Initial, Next, Committed, Finished, Originated,
      OnlyTouches, Sets;
    var net, o := Last(run), a.manifest.origin;
    RunOriginated(limits, run);
    assert AllSigned(net.oracle, net.stores[o]);
    hide AllSigned, SignedNet;
    var arrived := ObjectArrives(limits, run, c, a, t);
    var delivered := TargetStep(limits, arrived, c, a, t, signature);
    var recorded := OriginStep(limits, delivered, c, a, t, signature);
    Recorded(Last(delivered).stores[o], Last(recorded).stores[o], a, t, Issued(c, a, t, signature));
    longer := CloseSteps(limits, recorded, c, a, t, signature, ackSignature);
    AllDone(net, Last(arrived), Last(delivered), Last(recorded), Last(longer), a, t, Issued(c, a, t, signature));
  }

  lemma Recorded(db: Db, db': Db, a: Announcement, t: MemberId, r: Receipt)
    requires Awaits(db, a, t) && OnlyTouches(db, db', {TargetReceipts, Outbox})
    requires Sets(db.targetReceipts, db'.targetReceipts, (a.manifest.Id(), t), r)
    ensures
      var id := a.manifest.Id();
      && Committed(db'.operations, id) && id in db'.announcements && db'.announcements[id] == a && (id, t) !in db'.originAcks
      && (id, t) in db'.targetReceipts && db'.targetReceipts[(id, t)] == r
  {
    hide Committed;
  }

  lemma TargetStep(limits: Limits, run: seq<Net>, c: Terms, a: Announcement, t: MemberId, signature: nat) returns (longer: seq<Net>)
    requires IsRun(limits, run) && Fair(c, a) && a in Last(run).oracle.announcements && t in Last(run).stores
    requires t in a.manifest.targets && t != a.manifest.origin && Received(Last(run).stores[t], a, |a.manifest.hashes|)
    ensures IsRun(limits, longer) && run <= longer && t in Last(longer).stores
    ensures Last(longer).stores == Last(run).stores[t := Last(longer).stores[t]]
    ensures Last(longer).oracle == Last(run).oracle.(receipts := Last(run).oracle.receipts + {Issued(c, a, t, signature)})
    ensures a.manifest.Id() in Last(longer).stores[t].deliveries && Last(longer).stores[t].deliveries[a.manifest.Id()] == Issued(c, a, t, signature)
  {
    hide Inv, Transactions, Signed, Apply, Fair, Received, Evidence, Witnessed, Initial, Next;
    var net := Last(run);
    RunSafe(limits, run);
    FinalizingIs(c, a, limits, t, net.stores[t], net.oracle, signature);
    TargetDelivers(c, a, limits, t, net.stores[t], net.oracle, signature);
    longer := OneStep(limits, run, t, Finalizing(c, a, t, signature), FinalizingOp(c, a, t, signature),
                      net.oracle.(receipts := net.oracle.receipts + {Issued(c, a, t, signature)}));
  }

  lemma OriginStep(limits: Limits, run: seq<Net>, c: Terms, a: Announcement, t: MemberId, signature: nat) returns (longer: seq<Net>)
    requires IsRun(limits, run) && Fair(c, a) && a in Last(run).oracle.announcements && Issued(c, a, t, signature) in Last(run).oracle.receipts
    requires a.manifest.origin in Last(run).stores && t in a.manifest.targets && Awaits(Last(run).stores[a.manifest.origin], a, t)
    ensures IsRun(limits, longer) && run <= longer && a.manifest.origin in Last(longer).stores && Last(longer).oracle == Last(run).oracle
    ensures Last(longer).stores == Last(run).stores[a.manifest.origin := Last(longer).stores[a.manifest.origin]]
    ensures
      var db, db', id := Last(run).stores[a.manifest.origin], Last(longer).stores[a.manifest.origin], a.manifest.Id();
      && OnlyTouches(db, db', {TargetReceipts, Outbox}) && Sets(db.targetReceipts, db'.targetReceipts, (id, t), Issued(c, a, t, signature))
      && (id in db'.outbox <==> exists x :: x in a.manifest.targets && (id, x) !in db'.targetReceipts)
  {
    hide Inv, Transactions, Signed, Apply, Fair, Awaits, Evidence, Witnessed, Initial, Next, OnlyTouches, Sets;
    var net, o := Last(run), a.manifest.origin;
    RunSafe(limits, run);
    RecordingIs(c, a, limits, t, signature, o, net.stores[o], net.oracle);
    OriginRecords(c, a, limits, t, signature, o, net.stores[o]);
    longer := OneStep(limits, run, o, Recording(c, a, t, signature), RecordingOp(c, a, t, signature), net.oracle);
  }

  /** The origin acknowledges, and the target records that. */
  lemma CloseSteps(limits: Limits, run: seq<Net>, c: Terms, a: Announcement, t: MemberId, signature: nat, ackSignature: nat)
    returns (longer: seq<Net>)
    requires IsRun(limits, run) && Fair(c, a) && a in Last(run).oracle.announcements && Issued(c, a, t, signature) in Last(run).oracle.receipts
    requires a.manifest.origin in Last(run).stores && t in Last(run).stores && t in a.manifest.targets && t != a.manifest.origin
    requires
      var db, id := Last(run).stores[a.manifest.origin], a.manifest.Id();
      && Committed(db.operations, id) && id in db.announcements && db.announcements[id] == a && (id, t) !in db.originAcks
      && (id, t) in db.targetReceipts && db.targetReceipts[(id, t)] == Issued(c, a, t, signature)
    requires a.manifest.Id() in Last(run).stores[t].deliveries && Last(run).stores[t].deliveries[a.manifest.Id()] == Issued(c, a, t, signature)
    ensures IsRun(limits, longer) && run <= longer && a.manifest.origin in Last(longer).stores && t in Last(longer).stores
    ensures Last(longer).stores == Last(run).stores[a.manifest.origin := Last(longer).stores[a.manifest.origin]][t := Last(longer).stores[t]]
    ensures OnlyTouches(Last(run).stores[a.manifest.origin], Last(longer).stores[a.manifest.origin], {OriginAcks})
    ensures SameBut(Last(run).stores[a.manifest.origin].originAcks, Last(longer).stores[a.manifest.origin].originAcks, (a.manifest.Id(), t))
    ensures
      var db, id := Last(longer).stores[t], a.manifest.Id();
      && id in db.deliveries && db.deliveries[id] == Issued(c, a, t, signature)
      && id in db.acknowledged && db.acknowledged[id].receiptId == ReceiptId(Issued(c, a, t, signature))
  {
    hide Inv, Transactions, Signed, Apply, Fair, Evidence, Witnessed, Initial, Next, OnlyTouches, SameBut, Committed, OriginReceiptAck;
    var net, o, k := Last(run), a.manifest.origin, Answer(c, a, t, signature, ackSignature);
    RunSafe(limits, run);
    AckingIs(c, a, limits, t, ackSignature, o, net.stores[o], net.oracle);
    OriginAnswers(c, a, limits, t, signature, ackSignature, o, net.stores[o], net.oracle);
    var answered := OneStep(limits, run, o, Acking(c, a, t, ackSignature), AckingOp(c, a, t, ackSignature, net.oracle),
                            net.oracle.(acks := net.oracle.acks + {k}));
    var net' := Last(answered);
    RunSafe(limits, answered);
    ClosingIs(c, a, limits, t, signature, ackSignature, net'.stores[t], net'.oracle);
    TargetCloses(c, a, limits, t, signature, ackSignature, net'.stores[t]);
    longer := OneStep(limits, answered, t, Closing(c, a, t, signature, ackSignature), ClosingOp(c, a, t, signature, ackSignature), net'.oracle);
  }

  lemma AllDone(net: Net, arrived: Net, delivered: Net, recorded: Net, closed: Net, a: Announcement, t: MemberId, r: Receipt)
    requires a.manifest.origin in net.stores && t in net.stores && t != a.manifest.origin
    requires t in arrived.stores && arrived.stores == net.stores[t := arrived.stores[t]]
    requires t in delivered.stores && delivered.stores == arrived.stores[t := delivered.stores[t]]
    requires a.manifest.origin in recorded.stores && recorded.stores == delivered.stores[a.manifest.origin := recorded.stores[a.manifest.origin]]
    requires a.manifest.origin in closed.stores && t in closed.stores
    requires closed.stores == recorded.stores[a.manifest.origin := closed.stores[a.manifest.origin]][t := closed.stores[t]]
    requires OnlyTouches(delivered.stores[a.manifest.origin], recorded.stores[a.manifest.origin], {TargetReceipts, Outbox})
    requires Sets(net.stores[a.manifest.origin].targetReceipts, recorded.stores[a.manifest.origin].targetReceipts, (a.manifest.Id(), t), r)
    requires a.manifest.Id() in recorded.stores[a.manifest.origin].outbox <==>
               exists x :: x in a.manifest.targets && (a.manifest.Id(), x) !in recorded.stores[a.manifest.origin].targetReceipts
    requires OnlyTouches(recorded.stores[a.manifest.origin], closed.stores[a.manifest.origin], {OriginAcks})
    requires SameBut(recorded.stores[a.manifest.origin].originAcks, closed.stores[a.manifest.origin].originAcks, (a.manifest.Id(), t))
    requires
      var db, id := closed.stores[t], a.manifest.Id();
      id in db.deliveries && db.deliveries[id] == r && id in db.acknowledged && db.acknowledged[id].receiptId == ReceiptId(r)
    ensures Finished(net, closed, a, t, r)
  {
    hide Sets, SameBut;
  }

  // ----- every target -----

  /** These targets, each once, are still to be served, and no other is. */
  ghost predicate Remaining(net: Net, limits: Limits, c: Terms, a: Announcement, ts: seq<MemberId>) {
    && (forall i, j :: 0 <= i < j < |ts| ==> ts[i] != ts[j])
    && (forall t :: t in ts ==> Pending(net, limits, c, a, t))
    && a.manifest.origin in net.stores
    && forall x :: x in a.manifest.targets && x !in ts ==> (a.manifest.Id(), x) in net.stores[a.manifest.origin].targetReceipts
  }

  lemma StillPending(net: Net, net': Net, limits: Limits, c: Terms, a: Announcement, t: MemberId, served: MemberId, r: Receipt)
    requires Pending(net, limits, c, a, t) && Finished(net, net', a, served, r) && t != served
    ensures Pending(net', limits, c, a, t)
  {
    hide Fair, Untouched, Committed;
  }

  lemma OneFewer(net: Net, net': Net, limits: Limits, c: Terms, a: Announcement, ts: seq<MemberId>, r: Receipt)
    requires ts != [] && Remaining(net, limits, c, a, ts) && Finished(net, net', a, ts[0], r)
    ensures Remaining(net', limits, c, a, ts[1..])
  {
    hide Fair, Untouched, Committed, Pending;
    assert ts[0] in ts;
    forall t | t in ts[1..] ensures Pending(net', limits, c, a, t) {
      assert t in ts && t != ts[0];
      StillPending(net, net', limits, c, a, t, ts[0], r);
    }
    forall x | x in a.manifest.targets && x !in ts[1..] ensures (a.manifest.Id(), x) in net'.stores[a.manifest.origin].targetReceipts {
      assert x == ts[0] || x !in ts;
    }
  }

  /**
   * From every reachable state in which the targets that have not confirmed have room for the object: the run goes on to one in which
   * all of them have delivered it and the origin has taken it out of its outbox.
   */
  lemma {:induction false} EveryTargetCompletes(limits: Limits, run: seq<Net>, c: Terms, a: Announcement, ts: seq<MemberId>,
    signature: nat, ackSignature: nat)
    returns (longer: seq<Net>)
    requires IsRun(limits, run) && ts != [] && Remaining(Last(run), limits, c, a, ts)
    ensures IsRun(limits, longer) && run <= longer && a.manifest.origin in Last(longer).stores
    ensures a.manifest.Id() !in Last(longer).stores[a.manifest.origin].outbox
    ensures forall x :: x in a.manifest.targets ==> (a.manifest.Id(), x) in Last(longer).stores[a.manifest.origin].targetReceipts
    decreases |ts|
  {
    hide Inv, Fair, Untouched, Committed, Pending, Initial, Next, Finished;
    assert ts[0] in ts;
    var once := DeliveryCompletes(limits, run, c, a, ts[0], signature, ackSignature);
    OneFewer(Last(run), Last(once), limits, c, a, ts, Issued(c, a, ts[0], signature));
    FinishedOutbox(Last(run), Last(once), a, ts[0], Issued(c, a, ts[0], signature));
    longer := once;
    if |ts| > 1 { longer := EveryTargetCompletes(limits, once, c, a, ts[1..], signature, ackSignature); }
  }

  lemma FinishedOutbox(net: Net, net': Net, a: Announcement, t: MemberId, r: Receipt)
    requires Finished(net, net', a, t, r)
    ensures a.manifest.origin in net'.stores
    ensures
      var db := net'.stores[a.manifest.origin];
      a.manifest.Id() in db.outbox <==> exists x :: x in a.manifest.targets && (a.manifest.Id(), x) !in db.targetReceipts
  {
  }

  // ----- the drain gives what is sent -----

  /** The record of an object at a position: its announcement, and then its chunks. */
  predicate SentRecord(a: Announcement, db: Db, i: nat, r: Draining.Record) {
    if i == 0 then r == Draining.AnnouncementRecord(a)
    else (a.manifest.Id(), i - 1) in db.chunks && r == Draining.ChunkRecord(a.manifest.Id(), i - 1, db.chunks[(a.manifest.Id(), i - 1)])
  }

  /** Each slot of an origin's drain gives the frame and the record that a target accepts in the delivery above. */
  lemma DrainFeeds(c: Terms, a: Announcement, o: MemberId, db: Db, ids: seq<ObjectId>, slot: nat, i: nat,
    relayId: ObjectId -> nat, oracle: Oracle)
    returns (r: Draining.Record)
    requires Inv(o, db) && Draining.Listing(db, c.at, ids) && Fair(c, a) && a in oracle.announcements && o == a.manifest.origin
    requires a.manifest.Id() in db.announcements && db.announcements[a.manifest.Id()] == a && relayId(a.manifest.Id()) == c.relayId
    requires slot < |Draining.Places(ids)| && Draining.Places(ids)[slot] == (a.manifest.Id(), i)
    ensures SentRecord(a, db, i, r)
    ensures Draining.Answer(db, o, ids, slot, relayId, c.roster, c.at, oracle) == Ok(Some(Draining.Routed(Sent(c, a.manifest), r)))
  {
    hide Inv, StoredAnnouncement, Fair, Draining.Places, Draining.Created, Draining.LiveInOutbox;
    var p := Draining.Places(ids)[slot];
    assert p in Draining.Places(ids);
    Draining.PlacesMember(ids, p);
    assert Draining.LiveInOutbox(db, c.at, p.0);
    OutboxCommitted(o, db, p.0, c.at);
    CommittedIsWhole(o, db, p.0);
    StoredVerifies(c, a, o, db, oracle);
    r := if i == 0 then Draining.AnnouncementRecord(a) else Draining.ChunkRecord(p.0, i - 1, db.chunks[(p.0, i - 1)]);
  }

  lemma OutboxCommitted(o: MemberId, db: Db, id: ObjectId, now: nat)
    requires Inv(o, db) && Draining.LiveInOutbox(db, now, id)
    ensures Committed(db.operations, id)
  {
    hide ObjectsOk, ChunksOk, CompleteOk, ModesOk, RelayOk, DeliveriesOk, ReceiptsOk, OperationsOk, LinksOk, Committed, AllConfirmed;
  }
}
