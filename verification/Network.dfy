/**
 * A network of stores: every member runs the native boundary's step functions over its own store.
 * The network is arbitrary: a step may be offered any record at any time, or none, which covers loss, duplication,
 * reordering and forgery; a record verifies only if its named signer signed it. A restart keeps the store and nothing else,
 * so it is a step that changes nothing, and a crash ends a call after any of its transactions.
 */
module Network {
  import opened Types
  import opened Protocol
  import opened Tables
  import opened StoreRuns

  datatype Record =
    | AnnouncementRecord(announcement: Announcement)
    | ChunkRecord(id: ObjectId, index: nat, bytes: Bytes)
    | ReceiptRecord(receipt: Receipt)
    | AckRecord(ack: Ack)

  datatype Action =
    | Host(op: Op)
    | Seal(operation: OperationId, commandHash: nat, prepared: PreparedObject, roster: Roster, logical: Option<LogicalId>,
        signature: nat, at: nat)
    | Accept(frame: RelayFrame, record: Record, receivedFrom: MemberId, envelope: Result<Envelope, DurableError>,
        roster: Roster, crash: bool, at: nat)
    | FinalizeText(id: ObjectId, envelope: Result<Envelope, DurableError>, decrypts: bool, roster: Roster, signerKey: nat,
        signature: nat, at: nat)
    | DrainAck(id: ObjectId, actor: MemberId, envelope: Result<Envelope, DurableError>, roster: Roster, signerKey: nat,
        signature: nat, at: nat)
    | Restart

  datatype Net = Net(stores: map<MemberId, Db>, oracle: Oracle)

  // ----- the transactions of one call -----

  /**
   * Transactions the host starts without any signed input; the unauthenticated announce is not offered to hosts.
   * A message is rolled back only while it lacks an audience: before a retry, or after an attempt of its own failed.
   */
  predicate HostOp(db: Db, op: Op) {
    && WellFormed(op)
    && match op
       case ReserveOp(_, _) => true
       case BeginOp(_, _, _, _, _) => true
       case CommitOp(_, _, _, _, announcement, link) => announcement.None? && link.None?
       case PutChunkOp(_, _, _, _, _) => true
       case StageChunkOp(_, _, _, _) => true
       case PruneOp(_) => true
       case RollbackOp(logical) => Incomplete(db, logical)
       case _ => false
  }

  function AcceptAnnouncement(frame: RelayFrame, a: Announcement, roster: Roster, at: nat, oracle: Oracle): seq<Op> {
    var authenticated := AuthenticateAnnouncement(a, roster, at, oracle);
    if authenticated.Err? || a.manifest.origin != frame.origin then []
    else [AnnounceAuthenticatedOp(authenticated.value, roster, at)]
  }

  function AcceptChunk(db: Db, frame: RelayFrame, record: Record, receivedFrom: MemberId, at: nat): seq<Op>
    requires record.ChunkRecord?
  {
    if record.id !in db.objects || db.objects[record.id].manifest.origin != frame.origin then []
    else [PutChunkOp(record.id, record.index, record.bytes, at, Some(RelayMetadata(frame, receivedFrom)))]
  }

  /** The origin verifies and records a receipt; any other member takes it into relay custody. */
  function AcceptReceipt(db: Db, member: MemberId, frame: RelayFrame, receipt: Receipt, receivedFrom: MemberId,
    envelope: Result<Envelope, DurableError>, roster: Roster, at: nat, oracle: Oracle)
    : seq<Op>
  {
    if receipt.actor != frame.origin then []
    else if receipt.objectId in db.objects && db.objects[receipt.objectId].manifest.origin == member then
      var proof := VerifyTargetReceipt(db, receipt.objectId, receipt, envelope, roster, at, oracle);
      if proof.Err? then [] else [RecordReceiptOp(proof.value, roster, at)]
    else [PutRelayReceiptOp(receipt, frame, receivedFrom, at)]
  }

  /** The actor records an acknowledgement; a relay keeps it and then drops the receipt it answers, unless it crashes in between. */
  function AcceptAck(db: Db, member: MemberId, limits: Limits, frame: RelayFrame, ack: Ack, receivedFrom: MemberId,
    roster: Roster, crash: bool, at: nat, oracle: Oracle)
    : seq<Op>
  {
    if ack.origin != frame.origin || VerifyAck(ack, roster, at, oracle).Err? then []
    else if ack.actor == member then [RecordAckOp(ack, roster, at)]
    else if ack.origin == member then []
    else
      var put := PutRelayAckOp(ack, frame, receivedFrom, at);
      if PutRelayAck(db, member, limits, ack, frame, receivedFrom, at).Failed? || crash then [put]
      else [put, RemoveRelayReceiptOp(ack.receiptId)]
  }

  function AcceptRouted(db: Db, member: MemberId, limits: Limits, frame: RelayFrame, record: Record, receivedFrom: MemberId,
    envelope: Result<Envelope, DurableError>, roster: Roster, crash: bool, at: nat, oracle: Oracle)
    : seq<Op>
  {
    match record
    case AnnouncementRecord(a) => AcceptAnnouncement(frame, a, roster, at, oracle)
    case ChunkRecord(_, _, _) => AcceptChunk(db, frame, record, receivedFrom, at)
    case ReceiptRecord(receipt) => AcceptReceipt(db, member, frame, receipt, receivedFrom, envelope, roster, at, oracle)
    case AckRecord(ack) => AcceptAck(db, member, limits, frame, ack, receivedFrom, roster, crash, at, oracle)
  }

  /** A whole authenticated object addressed to this member that is not delivered yet. */
  predicate Deliverable(db: Db, member: MemberId, id: ObjectId, now: nat) {
    && id in db.objects && db.objects[id].complete && id in db.announcements && id !in db.localDeliveries
    && db.objects[id].manifest.origin != member && db.objects[id].manifest.expiresAt > now
    && member in db.objects[id].manifest.targets && db.objects[id].manifest.namespace == "mesh.chat.text.v1"
  }

  function VerifyReceived(db: Db, member: MemberId, id: ObjectId, envelope: Result<Envelope, DurableError>, decrypts: bool,
    roster: Roster, now: nat, oracle: Oracle)
    : Result<VerifiedDelivery, DurableError>
  {
    var a := StoredAnnouncement(db, id, roster, now, oracle);
    if a.Err? then Err(a.error)
    else if ChunkError(db, id, a.value.Manifest(), 0).Some? then Err(ChunkError(db, id, a.value.Manifest(), 0).value)
    else VerifyDelivery(a.value, envelope, decrypts, roster, member, now)
  }

  function SignedAnnouncement(roster: Roster, m: Manifest, signature: nat): Announcement {
    Announcement(roster.scope.group, m, signature)
  }

  /** An audience is sealed to expire with its message. */
  predicate ExpiresWith(db: Db, m: Manifest, logical: Option<LogicalId>) {
    logical.Some? && logical.value in db.logical ==> m.expiresAt == db.logical[logical.value].expiresAt
  }

  function Transactions(db: Db, member: MemberId, limits: Limits, oracle: Oracle, action: Action): seq<Op> {
    match action
    case Host(op) => if HostOp(db, op) then [op] else []
    case Seal(operation, hash, prepared, roster, logical, signature, at) =>
      var a := Authenticated(SignedAnnouncement(roster, prepared.manifest, signature), roster.scope, roster.digest);
      if !prepared.Valid() || !ExpiresWith(db, prepared.manifest, logical) || a.ValidateRoster(roster, at).Err? then []
      else [CommitOp(operation, hash, prepared, at, Some(a.announcement), logical)]
    case Accept(frame, record, from, envelope, roster, crash, at) =>
      AcceptRouted(db, member, limits, frame, record, from, envelope, roster, crash, at, oracle)
    case FinalizeText(id, envelope, decrypts, roster, key, signature, at) =>
      var proof := VerifyReceived(db, member, id, envelope, decrypts, roster, at, oracle);
      if !Deliverable(db, member, id, at) || proof.Err? then []
      else [FinalizeOp(proof.value, roster, key, signature, at)]
    case DrainAck(id, actor, envelope, roster, key, signature, at) =>
      [OriginAckOp(id, actor, envelope, roster, key, signature, at, oracle)]
    case Restart => []
  }

  /** Signatures come into the world only through the step functions: after the commit that stores what they sign. */
  ghost function Signed(db: Db, member: MemberId, limits: Limits, oracle: Oracle, action: Action): Oracle {
    match action
    case Seal(operation, hash, prepared, roster, logical, signature, at) =>
      var a := SignedAnnouncement(roster, prepared.manifest, signature);
      if Transactions(db, member, limits, oracle, action) == []
        || CommitOutgoing(db, member, limits, operation, hash, prepared, at, Some(a), logical).Failed?
      then oracle
      else oracle.(announcements := oracle.announcements + {a})
    case FinalizeText(_, _, _, _, _, _, _) =>
      var ops := Transactions(db, member, limits, oracle, action);
      if ops == [] then oracle
      else
        var o := FinalizeReceived(db, member, ops[0].delivery, ops[0].roster, ops[0].signerKey, ops[0].signature, ops[0].at);
        if o.Failed? then oracle else oracle.(receipts := oracle.receipts + {o.value.receipt})
    case DrainAck(id, actor, envelope, roster, key, signature, at) =>
      var o := OriginReceiptAck(db, member, id, actor, envelope, roster, key, signature, at, oracle);
      if o.Failed? then oracle else oracle.(acks := oracle.acks + {o.value})
    case _ => oracle
  }

  ghost function Step(limits: Limits, net: Net, who: MemberId, action: Action): Net
    requires who in net.stores
  {
    var db := net.stores[who];
    Net(net.stores[who := Run(who, limits, db, Transactions(db, who, limits, net.oracle, action))],
        Signed(db, who, limits, net.oracle, action))
  }

  ghost predicate Initial(net: Net) {
    (forall m :: m in net.stores ==> net.stores[m] == EMPTY) && net.oracle == Oracle({}, {}, {})
  }

  ghost predicate Next(limits: Limits, net: Net, net': Net) {
    exists who, action :: who in net.stores && net' == Step(limits, net, who, action)
  }

  /** A run: any number of steps of any members, from empty stores and no signatures. */
  ghost predicate IsRun(limits: Limits, run: seq<Net>) {
    |run| > 0 && Initial(run[0]) && forall i :: 0 <= i < |run| - 1 ==> Next(limits, run[i], run[i + 1])
  }

  /** The transactions of one call are well formed, so the store's invariant holds after them. */
  lemma TransactionsWellFormed(db: Db, member: MemberId, limits: Limits, oracle: Oracle, action: Action)
    ensures AllWellFormed(Transactions(db, member, limits, oracle, action))
  {
    hide PreparedObject.Valid, Manifest.Valid, VerifyTargetReceipt, VerifyAck, PutRelayAck, VerifyReceived, Deliverable,
      Authenticated.ValidateRoster, Roster.ValidateAt;
  }
}
