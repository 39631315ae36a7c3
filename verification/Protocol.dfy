/**
 * The signed records of durable delivery and the rules that issue and verify them.
 * Digests are ideal: a digest is the value it was taken of. Signatures are ideal: a record verifies
 * exactly when the oracle says that its named signer signed it.
 */
module Protocol {
  import opened Types

  datatype Digest = Digest(of: Bytes)

  datatype Scope = Scope(group: nat, epoch: nat)

  datatype ObjectId = ObjectId(manifest: Manifest)

  datatype Manifest = Manifest(
    origin: MemberId,
    sequence: nat,
    namespace: string,
    epoch: nat,
    targets: seq<MemberId>,
    expiresAt: nat,
    hopLimit: nat,
    contentLen: nat,
    hashes: seq<Digest>)
  {
    predicate Valid() {
      && 0 < sequence <= MAX_LOGICAL_TIME
      && 0 < epoch <= MAX_LOGICAL_TIME
      && 0 < expiresAt <= MAX_LOGICAL_TIME
      && 0 < hopLimit <= 16
      && 0 < |targets| <= MAX_TARGETS
      && (forall i, j :: 0 <= i < j < |targets| ==> targets[i] < targets[j])
      && 0 < contentLen <= MAX_OBJECT_BYTES
      && |hashes| == (contentLen + CHUNK_BYTES - 1) / CHUNK_BYTES
    }

    function Id(): ObjectId { ObjectId(this) }

    /** The chunk an index names: right index, right length, right digest. */
    predicate Fits(index: nat, bytes: Bytes) {
      && index < |hashes|
      && |bytes| == (if index + 1 == |hashes| then contentLen - index * CHUNK_BYTES else CHUNK_BYTES)
      && Digest(bytes) == hashes[index]
    }

    function VerifyChunk(index: nat, bytes: Bytes): Result<(), DurableError> {
      if index >= |hashes| then Err(InvalidInput)
      else if !Fits(index, bytes) then Err(Corrupt)
      else Ok(())
    }
  }

  /** An object whose chunks are the ones its manifest names, as `from_opaque` builds it. */
  datatype PreparedObject = PreparedObject(manifest: Manifest, chunks: seq<Bytes>) {
    predicate Valid() {
      && manifest.Valid()
      && |chunks| == |manifest.hashes|
      && forall i :: 0 <= i < |chunks| ==> manifest.Fits(i, chunks[i])
    }
  }

  datatype Announcement = Announcement(group: nat, manifest: Manifest, signature: nat)

  datatype Receipt = Receipt(
    scope: Scope,
    context: nat,
    objectId: ObjectId,
    origin: MemberId,
    sequence: nat,
    actor: MemberId,
    at: nat,
    signature: nat)

  datatype ReceiptId = ReceiptId(receipt: Receipt)

  datatype Ack = Ack(
    scope: Scope,
    receiptId: ReceiptId,
    objectId: ObjectId,
    origin: MemberId,
    actor: MemberId,
    at: nat,
    signature: nat)

  /** The records that verify under the key of the member they name as signer. */
  datatype Oracle = Oracle(announcements: set<Announcement>, receipts: set<Receipt>, acks: set<Ack>)

  datatype Cert = Cert(key: nat, validFrom: nat, validUntil: nat)

  datatype Roster = Roster(scope: Scope, members: map<MemberId, Cert>, digest: nat, validFrom: nat, validUntil: nat) {
    function ValidateAt(now: nat): Result<(), DurableError> {
      if now > MAX_LOGICAL_TIME then Err(InvalidInput)
      else if now < validFrom || now >= validUntil then Err(AuthenticationFailed)
      else Ok(())
    }
  }

  datatype Authenticated = Authenticated(announcement: Announcement, scope: Scope, rosterDigest: nat) {
    function Manifest(): Manifest { announcement.manifest }

    function ValidateRoster(roster: Roster, now: nat): Result<(), DurableError> {
      var v := roster.ValidateAt(now);
      if v.Err? then v else if rosterDigest != roster.digest then Err(AuthenticationFailed) else Ok(())
    }
  }

  function AuthenticateAnnouncement(a: Announcement, roster: Roster, now: nat, oracle: Oracle): Result<Authenticated, DurableError> {
    var v := roster.ValidateAt(now);
    if v.Err? then Err(v.error)
    else if !a.manifest.Valid() then Err(InvalidInput)
    else if a.group != roster.scope.group || a.manifest.epoch != roster.scope.epoch then Err(AuthenticationFailed)
    else if exists t :: t in a.manifest.targets && t !in roster.members then Err(AuthenticationFailed)
    else if a.manifest.origin !in roster.members || a !in oracle.announcements then Err(AuthenticationFailed)
    else Ok(Authenticated(a, roster.scope, roster.digest))
  }

  /** What opening the stored bytes of an object yields of its envelope header. */
  datatype Envelope = Envelope(context: nat, created: nat)

  datatype VerifiedDelivery = VerifiedDelivery(
    announcement: Authenticated,
    member: MemberId,
    key: nat,
    context: nat,
    verifiedAt: nat,
    deadline: nat)
  {
    function Subject(): ObjectId { announcement.Manifest().Id() }

    function ValidateCommit(roster: Roster, now: nat): Result<(), DurableError> {
      var v := announcement.ValidateRoster(roster, now);
      if v.Err? then v else if now < verifiedAt || now >= deadline then Err(Expired) else Ok(())
    }

    /** Signed inside the transaction that records the delivery. */
    function ReceiptForCommit(signerKey: nat, signature: nat, now: nat): Result<Receipt, DurableError> {
      if signerKey != key || now < verifiedAt || now >= deadline then Err(AuthenticationFailed)
      else
        var m := announcement.Manifest();
        Ok(Receipt(announcement.scope, context, m.Id(), m.origin, m.sequence, member, now, signature))
    }
  }

  function Min(a: nat, b: nat): nat { if a < b then a else b }

  function VerifyDelivery(a: Authenticated, envelope: Result<Envelope, DurableError>, decrypts: bool, roster: Roster,
    member: MemberId, now: nat)
    : Result<VerifiedDelivery, DurableError>
  {
    var v := a.ValidateRoster(roster, now);
    if v.Err? then Err(v.error)
    else if envelope.Err? then Err(envelope.error)
    else if now < envelope.value.created || now >= a.Manifest().expiresAt then Err(Expired)
    else if member !in a.Manifest().targets || member !in roster.members || !decrypts then Err(AuthenticationFailed)
    else Ok(VerifiedDelivery(a, member, roster.members[member].key, envelope.value.context, now,
                             Min(a.Manifest().expiresAt, roster.validUntil)))
  }

  datatype VerifiedReceipt = VerifiedReceipt(receipt: Receipt, announcement: Announcement, rosterDigest: nat) {
    function ValidateCommit(roster: Roster, now: nat): Result<(), DurableError> {
      var v := roster.ValidateAt(now);
      if v.Err? then v
      else if roster.digest != rosterDigest || now < receipt.at then Err(AuthenticationFailed)
      else Ok(())
    }
  }

  function VerifyReceipt(r: Receipt, a: Authenticated, envelope: Result<Envelope, DurableError>, roster: Roster, now: nat,
    oracle: Oracle)
    : Result<VerifiedReceipt, DurableError>
  {
    var v := a.ValidateRoster(roster, now);
    var m := a.Manifest();
    if v.Err? then Err(v.error)
    else if envelope.Err? then Err(envelope.error)
    else if || r.scope != a.scope || r.context != envelope.value.context || r.objectId != m.Id() || r.origin != m.origin
            || r.sequence != m.sequence || r.actor !in m.targets || r.at < envelope.value.created
            || r.at >= m.expiresAt || r.at > now
    then Err(InvalidReceipt)
    else if r.actor !in roster.members then Err(AuthenticationFailed)
    else if r.at < roster.members[r.actor].validFrom || r.at >= roster.members[r.actor].validUntil then Err(InvalidReceipt)
    else if r !in oracle.receipts then Err(InvalidReceipt)
    else Ok(VerifiedReceipt(r, a.announcement, roster.digest))
  }

  function IssueAck(receipt: Receipt, objectId: ObjectId, origin: MemberId, actor: MemberId, scope: Scope, signerKey: nat,
    signature: nat, now: nat)
    : Result<Ack, DurableError>
  {
    if now > MAX_LOGICAL_TIME then Err(InvalidInput)
    else if signerKey != origin then Err(InvalidReceipt)
    else Ok(Ack(scope, ReceiptId(receipt), objectId, origin, actor, now, signature))
  }

  function VerifyAck(k: Ack, roster: Roster, now: nat, oracle: Oracle): Result<Ack, DurableError> {
    var v := roster.ValidateAt(now);
    if v.Err? then Err(v.error)
    else if k.scope != roster.scope || k.at > now || k.at < roster.validFrom || k.at >= roster.validUntil then Err(InvalidReceipt)
    else if k.origin !in roster.members then Err(AuthenticationFailed)
    else if k.at < roster.members[k.origin].validFrom || k.at >= roster.members[k.origin].validUntil then Err(InvalidReceipt)
    else if k !in oracle.acks then Err(InvalidReceipt)
    else Ok(k)
  }
}
