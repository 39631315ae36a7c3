/**
 * Issuing and verifying the signed records: what verifies is what its signer could have issued, and what was issued keeps
 * verifying for as long as it should.
 */
module Evidence {
  import opened Types
  import opened Protocol
  import opened Tables
  import opened TablesInvariant
  import opened StoreRuns
  import opened Network
  import opened Effects

  /** The roster lists the member, with a certificate that was valid at that time. */
  predicate Certified(roster: Roster, m: MemberId, at: nat) {
    m in roster.members && roster.members[m].validFrom <= at < roster.members[m].validUntil
  }

  /** The announcement was read under this roster, which is live. */
  predicate Current(a: Authenticated, roster: Roster, now: nat) { RosterLive(roster, now) && a.rosterDigest == roster.digest }

  // ----- announcements -----

  /**
   * An announcement is believed exactly when its named origin signed it for this group and epoch, its manifest is valid, and the
   * live roster lists the origin and every target.
   */
  lemma AnnouncementExact(a: Announcement, roster: Roster, now: nat, oracle: Oracle)
    ensures AuthenticateAnnouncement(a, roster, now, oracle).Ok? <==>
              && RosterLive(roster, now) && a in oracle.announcements && a.manifest.Valid() && Scope(a.group, a.manifest.epoch) == roster.scope
              && (set t | t in a.manifest.targets) + {a.manifest.origin} <= roster.members.Keys
    ensures AuthenticateAnnouncement(a, roster, now, oracle).Ok? ==>
              AuthenticateAnnouncement(a, roster, now, oracle).value == Authenticated(a, roster.scope, roster.digest)
  {
    hide Manifest.Valid;
    var targets := set t | t in a.manifest.targets;
    assert (forall t :: t in a.manifest.targets ==> t in roster.members) <==> targets <= roster.members.Keys;
  }

  // ----- deliveries and receipts -----

  /** A delivery is proved exactly to a listed target that decrypts, between the envelope's creation and the object's expiry. */
  lemma DeliveryExact(a: Authenticated, envelope: Result<Envelope, DurableError>, decrypts: bool, roster: Roster, member: MemberId, now: nat)
    ensures VerifyDelivery(a, envelope, decrypts, roster, member, now).Ok? <==>
              && Current(a, roster, now) && decrypts && member in a.Manifest().targets && member in roster.members
              && envelope.Ok? && envelope.value.created <= now < a.Manifest().expiresAt
    ensures VerifyDelivery(a, envelope, decrypts, roster, member, now).Ok? ==>
              var p := VerifyDelivery(a, envelope, decrypts, roster, member, now).value;
              && p.announcement == a && p.member == member && p.key == roster.members[member].key && p.context == envelope.value.context
              && p.verifiedAt == now && p.deadline <= a.Manifest().expiresAt && p.deadline <= roster.validUntil
              && p.deadline in {a.Manifest().expiresAt, roster.validUntil}
  {
  }

  /** The receipt that a proved delivery of the object to this actor signs at this time. */
  function ReceiptAt(a: Authenticated, context: nat, actor: MemberId, at: nat, signature: nat): Receipt {
    Receipt(a.scope, context, a.Manifest().Id(), a.Manifest().origin, a.Manifest().sequence, actor, at, signature)
  }

  /** A commit signs exactly that receipt, and only with the proved member's key while the proof holds. */
  lemma IssueExact(p: VerifiedDelivery, key: nat, signature: nat, now: nat)
    ensures p.ReceiptForCommit(key, signature, now).Ok? <==> key == p.key && p.verifiedAt <= now < p.deadline
    ensures p.ReceiptForCommit(key, signature, now).Ok? ==>
              p.ReceiptForCommit(key, signature, now).value == ReceiptAt(p.announcement, p.context, p.member, now, signature)
  {
  }

  /**
   * A receipt verifies exactly when its actor signed it, it is what the commit of this object to that actor signs, and it dates from
   * the object's life, the validity of the actor's certificate and the past.
   */
  lemma ReceiptExact(r: Receipt, a: Authenticated, envelope: Result<Envelope, DurableError>, roster: Roster, now: nat, oracle: Oracle)
    ensures VerifyReceipt(r, a, envelope, roster, now, oracle).Ok? <==>
              && Current(a, roster, now) && r in oracle.receipts && envelope.Ok?
              && r == ReceiptAt(a, envelope.value.context, r.actor, r.at, r.signature) && r.actor in a.Manifest().targets
              && envelope.value.created <= r.at < a.Manifest().expiresAt && r.at <= now && Certified(roster, r.actor, r.at)
    ensures VerifyReceipt(r, a, envelope, roster, now, oracle).Ok? ==>
              VerifyReceipt(r, a, envelope, roster, now, oracle).value == VerifiedReceipt(r, a.announcement, roster.digest)
  {
  }

  /**
   * A receipt that a target's commit signed verifies at the origin at every later moment of the same live roster, even after the
   * object expired, if the target's certificate was valid when it signed.
   */
  lemma IssuedReceiptVerifies(a: Authenticated, envelope: Envelope, roster: Roster, member: MemberId, verified: nat, key: nat, signature: nat,
    signed: nat, now: nat, oracle: Oracle)
    requires VerifyDelivery(a, Ok(envelope), true, roster, member, verified).Ok?
    requires VerifyDelivery(a, Ok(envelope), true, roster, member, verified).value.ReceiptForCommit(key, signature, signed).Ok?
    requires Certified(roster, member, signed) && signed <= now && RosterLive(roster, now)
    requires ReceiptAt(a, envelope.context, member, signed, signature) in oracle.receipts
    ensures VerifyReceipt(ReceiptAt(a, envelope.context, member, signed, signature), a, Ok(envelope), roster, now, oracle).Ok?
  {
    var p := VerifyDelivery(a, Ok(envelope), true, roster, member, verified).value;
    DeliveryExact(a, Ok(envelope), true, roster, member, verified);
    IssueExact(p, key, signature, signed);
    ReceiptExact(ReceiptAt(a, envelope.context, member, signed, signature), a, Ok(envelope), roster, now, oracle);
    assert signed < p.deadline;
  }

  /** And nothing else does: a receipt that verifies is the one which its actor's commit under its listed key signs at the time it names. */
  lemma VerifiedWasIssuable(r: Receipt, a: Authenticated, envelope: Envelope, roster: Roster, now: nat, oracle: Oracle)
    requires VerifyReceipt(r, a, Ok(envelope), roster, now, oracle).Ok? && RosterLive(roster, r.at)
    ensures
      var p := VerifyDelivery(a, Ok(envelope), true, roster, r.actor, r.at);
      p.Ok? && p.value.ReceiptForCommit(roster.members[r.actor].key, r.signature, r.at) == Ok(r)
  {
    ReceiptExact(r, a, Ok(envelope), roster, now, oracle);
    DeliveryExact(a, Ok(envelope), true, roster, r.actor, r.at);
    IssueExact(VerifyDelivery(a, Ok(envelope), true, roster, r.actor, r.at).value, roster.members[r.actor].key, r.signature, r.at);
  }

  /**
   * At a store, a receipt is evidence exactly when the store has the announcement of that object, still believed under the live
   * roster, and every chunk of it, and the receipt verifies against that announcement.
   */
  lemma TargetReceiptExact(member: MemberId, db: Db, id: ObjectId, r: Receipt, envelope: Result<Envelope, DurableError>, roster: Roster,
    now: nat, oracle: Oracle)
    requires Inv(member, db)
    ensures VerifyTargetReceipt(db, id, r, envelope, roster, now, oracle).Ok? <==>
              && id in db.announcements && AuthenticateAnnouncement(db.announcements[id], roster, now, oracle).Ok?
              && (forall i :: 0 <= i < |id.manifest.hashes| ==> (id, i) in db.chunks)
              && VerifyReceipt(r, Authenticated(db.announcements[id], roster.scope, roster.digest), envelope, roster, now, oracle).Ok?
    ensures VerifyTargetReceipt(db, id, r, envelope, roster, now, oracle).Ok? ==>
              VerifyTargetReceipt(db, id, r, envelope, roster, now, oracle).value == VerifiedReceipt(r, db.announcements[id], roster.digest)
  {
    hide Inv, VerifyReceipt, ChunkError, AuthenticateAnnouncement;
    if id in db.announcements {
      AnnouncementExact(db.announcements[id], roster, now, oracle);
      AnnouncedRow(member, db, id);
      WholeOrNot(member, db, id);
      ReceiptExact(r, Authenticated(db.announcements[id], roster.scope, roster.digest), envelope, roster, now, oracle);
    }
  }

  lemma AnnouncedRow(member: MemberId, db: Db, id: ObjectId)
    requires Inv(member, db) && id in db.announcements
    ensures db.announcements[id].manifest == id.manifest && id in db.objects && db.objects[id].manifest == id.manifest
  {
    hide ChunksOk, CompleteOk, RelayOk, DeliveriesOk, OperationsOk, ReceiptsOk, OutboxOk, LinksOk, Manifest.Valid, SameSlot;
    RowOf(member, db, id);
  }

  // ----- acknowledgements -----

  /** An acknowledgement verifies exactly when its named origin signed it in this scope, under a valid certificate, in the roster's past. */
  lemma AckExact(k: Ack, roster: Roster, now: nat, oracle: Oracle)
    ensures VerifyAck(k, roster, now, oracle).Ok? <==>
              && RosterLive(roster, now) && k in oracle.acks && k.scope == roster.scope
              && roster.validFrom <= k.at <= now && Certified(roster, k.origin, k.at)
    ensures VerifyAck(k, roster, now, oracle).Ok? ==> VerifyAck(k, roster, now, oracle).value == k
  {
  }

  /** The origin's answer to a receipt keeps verifying for as long as the roster lives. */
  lemma IssuedAckVerifies(receipt: Receipt, roster: Roster, origin: MemberId, signature: nat, issued: nat, now: nat, oracle: Oracle)
    requires RosterLive(roster, issued) && issued <= now && RosterLive(roster, now) && Certified(roster, origin, issued)
    requires IssueAck(receipt, receipt.objectId, origin, receipt.actor, roster.scope, origin, signature, issued).Ok?
    requires IssueAck(receipt, receipt.objectId, origin, receipt.actor, roster.scope, origin, signature, issued).value in oracle.acks
    ensures
      var k := IssueAck(receipt, receipt.objectId, origin, receipt.actor, roster.scope, origin, signature, issued).value;
      && VerifyAck(k, roster, now, oracle) == Ok(k) && k.receiptId == ReceiptId(receipt) && k.objectId == receipt.objectId
      && k.actor == receipt.actor && k.origin == origin && k.at == issued
  {
    AckExact(IssueAck(receipt, receipt.objectId, origin, receipt.actor, roster.scope, origin, signature, issued).value, roster, now, oracle);
  }

  // ----- the frame around a record -----

  /** Who must have signed a record for it to travel in a frame: its frame names that member as its origin. */
  function Signer(db: Db, record: Record): Option<MemberId> {
    match record
    case AnnouncementRecord(a) => Some(a.manifest.origin)
    case ChunkRecord(id, _, _) => if id in db.objects then Some(db.objects[id].manifest.origin) else None
    case ReceiptRecord(r) => Some(r.actor)
    case AckRecord(k) => Some(k.origin)
  }

  /** A record under a frame of anybody else than its signer, or a chunk of an unknown object, is dropped without a transaction. */
  lemma FrameNamesSigner(db: Db, member: MemberId, limits: Limits, frame: RelayFrame, record: Record, from: MemberId,
    envelope: Result<Envelope, DurableError>, roster: Roster, crash: bool, at: nat, oracle: Oracle)
    requires AcceptRouted(db, member, limits, frame, record, from, envelope, roster, crash, at, oracle) != []
    ensures Signer(db, record) == Some(frame.origin)
  {
    hide VerifyTargetReceipt, AuthenticateAnnouncement, VerifyAck, PutRelayAck;
  }

  /** What a member does with another's record under its own frame: chunks and announcements go to the store, foreign receipts into custody. */
  lemma RelayAccepts(db: Db, member: MemberId, limits: Limits, frame: RelayFrame, record: Record, from: MemberId,
    envelope: Result<Envelope, DurableError>, roster: Roster, at: nat, oracle: Oracle)
    requires Signer(db, record) == Some(frame.origin)
    ensures
      var ops := AcceptRouted(db, member, limits, frame, record, from, envelope, roster, false, at, oracle);
      match record
      case AnnouncementRecord(a) =>
        AuthenticateAnnouncement(a, roster, at, oracle).Ok? ==>
          ops == [AnnounceAuthenticatedOp(Authenticated(a, roster.scope, roster.digest), roster, at)]
      case ChunkRecord(id, index, bytes) => ops == [PutChunkOp(id, index, bytes, at, Some(RelayMetadata(frame, from)))]
      case ReceiptRecord(r) => Foreign(db, member, r) ==> ops == [PutRelayReceiptOp(r, frame, from, at)]
      case AckRecord(k) =>
        VerifyAck(k, roster, at, oracle).Ok? ==>
          && (k.actor == member ==> ops == [RecordAckOp(k, roster, at)])
          && (k.actor != member && k.origin != member && PutRelayAck(db, member, limits, k, frame, from, at).Done? ==>
                ops == [PutRelayAckOp(k, frame, from, at), RemoveRelayReceiptOp(k.receiptId)])
  {
    hide VerifyTargetReceipt, VerifyAck, PutRelayAck;
    if record.AnnouncementRecord? { AnnouncementExact(record.announcement, roster, at, oracle); }
    hide AuthenticateAnnouncement;
  }

  /** The receipt is not for an object of this member. */
  predicate Foreign(db: Db, member: MemberId, r: Receipt) { r.objectId in db.objects ==> db.objects[r.objectId].manifest.origin != member }
}
