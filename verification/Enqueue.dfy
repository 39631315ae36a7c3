/** Queueing one text for a whole group: one sealed object per audience, all of them or none. */
module Enqueue {
  import opened Types
  import opened Sums
  import opened Chunking
  import opened Rosters
  import opened Protocol
  import opened Objects
  import opened Tables
  import opened TablesInvariant
  import opened Stores
  import opened StoreRuns
  import opened NetworkSequences
  import Effects

  datatype FfiError = InvalidArgument | StaleRequest | InternalInvariant | FfiPressure

  /** What the random source and the sealer give for one audience. */
  datatype Draw = NoRandom | NotSealed(operation: OperationId, hash: nat)
                | Sealed(operation: OperationId, hash: nat, envelope: Bytes, signature: nat)

  datatype Policy = Policy(roster: Roster, members: seq<MemberId>)

  datatype Queued = Accepted(records: nat) | Rejected(error: FfiError) | Crashed

  const LIFETIME: nat := 900
  const HOP_LIMIT: nat := 16

  // ----- the message in the tables -----

  ghost predicate Audience(db: Db, member: MemberId, logical: LogicalId, id: ObjectId, targets: seq<MemberId>, expiresAt: nat) {
    && id in db.objects && db.objects[id].complete && id in db.outbox && id in db.announcements
    && id.manifest.origin == member && id.manifest.targets == targets && id.manifest.expiresAt == expiresAt
    && id in db.links && db.links[id] == Link(logical, |targets|)
  }

  predicate Distinct(ids: seq<ObjectId>) { forall i, j :: 0 <= i < j < |ids| ==> ids[i] != ids[j] }

  /** The message's objects are exactly ids, one for each of the first audiences. */
  ghost predicate FirstAudiences(db: Db, member: MemberId, logical: LogicalId, ids: seq<ObjectId>, audiences: seq<seq<MemberId>>,
    expiresAt: nat)
  {
    && |ids| <= |audiences| && Distinct(ids)
    && (forall id :: id in LinkedTo(db, logical) <==> id in ids)
    && (forall i :: 0 <= i < |ids| ==> Audience(db, member, logical, ids[i], audiences[i], expiresAt))
  }

  /** Some of the audiences, in order, and nothing else of this message; what a crash may leave. */
  ghost predicate Partial(db: Db, member: MemberId, logical: LogicalId, audiences: seq<seq<MemberId>>) {
    logical in db.logical ==>
      exists ids :: FirstAudiences(db, member, logical, ids, audiences, db.logical[logical].expiresAt)
  }

  /** One object for every audience. */
  ghost predicate Full(db: Db, member: MemberId, logical: LogicalId, audiences: seq<seq<MemberId>>) {
    && logical in db.logical
    && exists ids :: |ids| == |audiences| && FirstAudiences(db, member, logical, ids, audiences, db.logical[logical].expiresAt)
  }

  /** Every chunk of the object is stored. */
  predicate HasChunks(db: Db, id: ObjectId) { forall i :: 0 <= i < |id.manifest.hashes| ==> (id, i) in db.chunks }

  /** The bytes an object's stored chunks join to. */
  function Content(db: Db, id: ObjectId): Bytes
    requires HasChunks(db, id)
  {
    Flatten(seq(|id.manifest.hashes|, i requires 0 <= i < |id.manifest.hashes| => db.chunks[(id, i)]))
  }

  /** The object holds exactly the envelope that was sealed for it, as a text of this epoch, under the signature drawn with it. */
  ghost predicate Carries(db: Db, roster: Roster, id: ObjectId, draw: Draw) {
    && draw.Sealed? && HasChunks(db, id) && Content(db, id) == draw.envelope
    && id.manifest.namespace == "mesh.chat.text.v1" && id.manifest.epoch == roster.scope.epoch && id.manifest.hopLimit == HOP_LIMIT
    && id in db.announcements && db.announcements[id] == Announcement(roster.scope.group, id.manifest, draw.signature)
  }

  ghost predicate AllCarry(db: Db, roster: Roster, ids: seq<ObjectId>, draws: nat -> Draw) {
    forall i :: 0 <= i < |ids| ==> Carries(db, roster, ids[i], draws(i))
  }

  /** An announcement and the chunks of each object: the records that a drain will send. */
  function Records(ids: seq<ObjectId>): nat {
    if ids == [] then 0 else Records(ids[..|ids| - 1]) + 1 + |ids[|ids| - 1].manifest.hashes|
  }

  /** One object for every audience in order, each with what was sealed for that audience; and so many records. */
  ghost predicate SealedFor(db: Db, member: MemberId, roster: Roster, logical: LogicalId, audiences: seq<seq<MemberId>>, draws: nat -> Draw,
    records: nat)
  {
    && logical in db.logical
    && exists ids :: |ids| == |audiences| && FirstAudiences(db, member, logical, ids, audiences, db.logical[logical].expiresAt)
                     && AllCarry(db, roster, ids, draws) && records == Records(ids)
  }

  /** No announcement and no chunk is lost or replaced. */
  ghost predicate KeepsContents(db: Db, db': Db) {
    && (forall id :: id in db.announcements ==> id in db'.announcements && db'.announcements[id] == db.announcements[id])
    && (forall k :: k in db.chunks ==> k in db'.chunks && db'.chunks[k] == db.chunks[k])
  }

  lemma CarryOn(db: Db, db': Db, roster: Roster, ids: seq<ObjectId>, draws: nat -> Draw)
    requires AllCarry(db, roster, ids, draws) && KeepsContents(db, db')
    ensures AllCarry(db', roster, ids, draws)
  {
    forall i | 0 <= i < |ids| ensures Carries(db', roster, ids[i], draws(i)) {
      var id := ids[i];
      assert Carries(db, roster, id, draws(i));
      assert seq(|id.manifest.hashes|, j requires 0 <= j < |id.manifest.hashes| => db'.chunks[(id, j)])
          == seq(|id.manifest.hashes|, j requires 0 <= j < |id.manifest.hashes| => db.chunks[(id, j)]);
    }
  }

  lemma ContentIs(db: Db, id: ObjectId, list: seq<Bytes>)
    requires |list| == |id.manifest.hashes| && forall i :: 0 <= i < |list| ==> (id, i) in db.chunks && db.chunks[(id, i)] == list[i]
    ensures HasChunks(db, id) && Content(db, id) == Flatten(list)
  {
    assert seq(|id.manifest.hashes|, i requires 0 <= i < |id.manifest.hashes| => db.chunks[(id, i)]) == list;
  }

  lemma CommittingRows(db: Db, op: OperationId, prepared: PreparedObject, a: Announcement, logical: LogicalId)
    requires op in db.operations
    ensures
      var db', id := Committing(db, op, prepared, a, logical), prepared.manifest.Id();
      && db'.announcements == db.announcements[id := a]
      && (forall i :: 0 <= i < |prepared.chunks| ==> (id, i) in db'.chunks && db'.chunks[(id, i)] == prepared.chunks[i])
      && (forall k :: k in db.chunks && k.0 != id ==> k in db'.chunks && db'.chunks[k] == db.chunks[k])
  {
    var rows := ChunkRows(prepared.manifest.Id(), prepared.chunks);
    assert forall i :: 0 <= i < |prepared.chunks| ==> (prepared.manifest.Id(), i) in rows;
  }

  /** The commit of a prepared envelope under a reservation just made stores exactly that envelope. */
  lemma CommitCarries(db: Db, db1: Db, op: OperationId, prepared: PreparedObject, logical: LogicalId, roster: Roster, draw: Draw, a: Announcement)
    requires op in db1.operations && db1.announcements == db.announcements && db1.chunks == db.chunks
    requires draw.Sealed? && |prepared.chunks| == |prepared.manifest.hashes| && Flatten(prepared.chunks) == draw.envelope
    requires prepared.manifest.namespace == "mesh.chat.text.v1" && prepared.manifest.epoch == roster.scope.epoch
    requires prepared.manifest.hopLimit == HOP_LIMIT && prepared.manifest.Id() !in db1.announcements
    requires a == Announcement(roster.scope.group, prepared.manifest, draw.signature)
    requires forall k :: k in db1.chunks ==> k.0 != prepared.manifest.Id()
    ensures
      var db' := Committing(db1, op, prepared, a, logical);
      Carries(db', roster, prepared.manifest.Id(), draw) && KeepsContents(db, db')
  {
    hide Committing, Content;
    CommittingRows(db1, op, prepared, a, logical);
    ContentIs(Committing(db1, op, prepared, a, logical), prepared.manifest.Id(), prepared.chunks);
  }

  /** No unused reservation. */
  ghost predicate AllUsed(db: Db) { forall op :: op in db.operations ==> db.operations[op].objectId.Some? }

  /** What is left when the message is taken away: base, with a later next sequence. */
  ghost predicate Undoes(db: Db, logical: LogicalId, base: Db) {
    Rollback(db, logical) == base.(nextSequence := db.nextSequence)
  }

  // ----- rolling back undoes -----

  lemma NoLinksTo(member: MemberId, db: Db, logical: LogicalId)
    requires Inv(member, db) && logical !in db.logical
    ensures LinkedTo(db, logical) == map[]
  {
    hide ObjectsOk, ChunksOk, CompleteOk, ModesOk, RelayOk, DeliveriesOk, OperationsOk, ReceiptsOk, OutboxOk, Committed, WithinTotals;
  }

  lemma UsedDrop(db: Db)
    requires AllUsed(db)
    ensures DropUnused(db) == db
  {
    assert DropUnused(db).operations == db.operations;
  }

  /** Without the message, rolling it back changes nothing. */
  lemma AbsentUndoes(member: MemberId, db: Db, logical: LogicalId)
    requires Inv(member, db) && AllUsed(db) && logical !in db.logical
    ensures Rollback(db, logical) == db
  {
    hide DeleteObjects, DropUnused, Inv, LinkRows;
    NoLinksTo(member, db, logical);
    DeleteTwice(db, {}, {});
    assert LinkedTo(db, logical).Keys == {};
    assert db.(logical := db.logical - {logical}) == db;
    UsedDrop(db);
  }

  lemma BeginUndoes(member: MemberId, db: Db, logical: LogicalId, row: Logical)
    requires Inv(member, db) && AllUsed(db) && logical !in db.logical
    ensures Undoes(db.(logical := db.logical[logical := row]), logical, db)
    ensures LinkedTo(db.(logical := db.logical[logical := row]), logical) == map[]
  {
    hide DeleteObjects, DropUnused, Inv, LinkRows;
    var db' := db.(logical := db.logical[logical := row]);
    NoLinksTo(member, db, logical);
    assert LinkedTo(db', logical) == LinkedTo(db, logical);
    DeleteTwice(db', {}, {});
    assert LinkedTo(db', logical).Keys == {};
    assert db'.(logical := db'.logical - {logical}) == db;
    UsedDrop(db);
  }

  /** A new reservation without an object goes with any rollback. */
  lemma UnusedGoes(operations: map<OperationId, Operation>, op: OperationId, hash: nat, sequence: nat, ids: set<ObjectId>)
    requires op !in operations
    ensures UsedReservations(OthersReservations(operations[op := Operation(hash, sequence, None)], ids))
         == UsedReservations(OthersReservations(operations, ids))
  {
  }

  lemma ReserveUndoes(db: Db, logical: LogicalId, base: Db, op: OperationId, hash: nat)
    requires Undoes(db, logical, base) && op !in db.operations
    ensures
      Undoes(db.(nextSequence := db.nextSequence + 1, operations := db.operations[op := Operation(hash, db.nextSequence, None)]), logical, base)
  {
    hide OfOthers, LinkRows, OthersReservations, UsedReservations;
    UnusedGoes(db.operations, op, hash, db.nextSequence, LinkedTo(db, logical).Keys);
  }

  // ----- the commit of one audience -----

  /** Nothing in any table belongs to an object that is not stored. */
  lemma NoRows(member: MemberId, db: Db, id: ObjectId)
    requires Inv(member, db) && id !in db.objects
    ensures forall k :: k in db.chunks ==> k.0 != id
    ensures forall k :: k in db.targetReceipts ==> k.0 != id
    ensures forall k :: k in db.originAcks ==> k.0 != id
    ensures id !in db.outbox && id !in db.relayOutbox && id !in db.relayMetadata && id !in db.localDeliveries
    ensures id !in db.announcements && id !in db.deliveries && id !in db.acknowledged && id !in db.links
    ensures !Committed(db.operations, id)
  {
    hide ObjectsOk, CompleteOk, Manifest.Fits, FrameBound, WithinTotals, LinkRows, AllConfirmed;
  }

  lemma MinusNew<V>(rows: map<ObjectId, V>, ids: set<ObjectId>, id: ObjectId, value: V)
    requires id !in rows
    ensures rows[id := value] - (ids + {id}) == rows - ids
  {
  }

  lemma MinusAbsent<V>(rows: map<ObjectId, V>, ids: set<ObjectId>, id: ObjectId)
    requires id !in rows
    ensures rows - (ids + {id}) == rows - ids
  {
  }

  lemma OutboxNew(outbox: set<ObjectId>, ids: set<ObjectId>, id: ObjectId)
    requires id !in outbox
    ensures outbox + {id} - (ids + {id}) == outbox - ids
  {
  }

  lemma ChunksNew(chunks: map<(ObjectId, nat), Bytes>, ids: set<ObjectId>, id: ObjectId, list: seq<Bytes>)
    requires forall k :: k in chunks ==> k.0 != id
    ensures OfOthers(chunks + ChunkRows(id, list), ids + {id}) == OfOthers(chunks, ids)
  {
  }

  lemma RowsNew<V>(rows: map<(ObjectId, MemberId), V>, ids: set<ObjectId>, id: ObjectId)
    requires forall k :: k in rows ==> k.0 != id
    ensures OfOthers(rows, ids + {id}) == OfOthers(rows, ids)
  {
  }

  lemma UsedNew(operations: map<OperationId, Operation>, op: OperationId, id: ObjectId, ids: set<ObjectId>)
    requires op in operations && operations[op].objectId.None? && !Committed(operations, id)
    ensures UsedReservations(OthersReservations(operations[op := operations[op].(objectId := Some(id))], ids + {id}))
         == UsedReservations(OthersReservations(operations, ids))
  {
    assert forall p :: p in operations && operations[p].objectId.Some? ==> operations[p].objectId != Some(id);
  }

  lemma LinkedNew(db: Db, logical: LogicalId, id: ObjectId, targetCount: nat)
    requires id !in db.links
    ensures LinkRows(db.links[id := Link(logical, targetCount)], logical).Keys == LinkedTo(db, logical).Keys + {id}
  {
  }

  /** The tables after a commit of a new announced object into a message. */
  ghost function Committing(db: Db, op: OperationId, prepared: PreparedObject, a: Announcement, logical: LogicalId): Db
    requires op in db.operations
  {
    var id := prepared.manifest.Id();
    db.(operations := db.operations[op := db.operations[op].(objectId := Some(id))],
        objects := db.objects[id := ObjectRow(prepared.manifest, true)],
        chunks := db.chunks + ChunkRows(id, prepared.chunks),
        outbox := db.outbox + {id},
        announcements := db.announcements[id := a],
        links := db.links[id := Link(logical, |prepared.manifest.targets|)])
  }

  lemma CommitNewIs(db: Db, member: MemberId, limits: Limits, op: OperationId, prepared: PreparedObject, now: nat,
    a: Announcement, logical: LogicalId)
    requires op in db.operations
    requires prepared.manifest.Id() !in db.objects && prepared.manifest.Id() !in db.announcements && prepared.manifest.Id() !in db.links
    requires CommitNew(db, member, limits, op, prepared, now, Some(a), Some(logical)).Done?
    ensures CommitNew(db, member, limits, op, prepared, now, Some(a), Some(logical)).db == Committing(db, op, prepared, a, logical)
  {
    hide ChunkRows, ChunksClash, Claimed, InsertManifest, LinkLogical;
    InsertedIs(db, limits, prepared.manifest);
    LinkedIs(db, logical, prepared.manifest.Id(), |prepared.manifest.targets|);
  }

  lemma InsertedIs(db: Db, limits: Limits, m: Manifest)
    requires m.Id() !in db.objects
    ensures InsertManifest(db, limits, m).Ok? ==>
      InsertManifest(db, limits, m).value[m.Id() := ObjectRow(m, true)] == db.objects[m.Id() := ObjectRow(m, true)]
  {
    hide Total, ReservedBytes, SameSlot;
  }

  lemma LinkedIs(db: Db, logical: LogicalId, id: ObjectId, targetCount: nat)
    requires id !in db.links
    ensures LinkLogical(db, logical, id, targetCount).Ok? ==>
      LinkLogical(db, logical, id, targetCount).value == db.links[id := Link(logical, targetCount)]
  {
    hide Total, LinkRows;
  }

  lemma CommitIs(db: Db, member: MemberId, limits: Limits, op: OperationId, hash: nat, prepared: PreparedObject, now: nat,
    a: Announcement, logical: LogicalId)
    requires op in db.operations && db.operations[op].objectId.None?
    requires prepared.manifest.Id() !in db.objects && prepared.manifest.Id() !in db.announcements && prepared.manifest.Id() !in db.links
    requires CommitOutgoing(db, member, limits, op, hash, prepared, now, Some(a), Some(logical)).Done?
    ensures CommitOutgoing(db, member, limits, op, hash, prepared, now, Some(a), Some(logical)).db
         == Committing(db, op, prepared, a, logical)
    ensures now < prepared.manifest.expiresAt && db.operations[op].sequence == prepared.manifest.sequence
         && prepared.manifest.origin == member
  {
    hide CommitNew, ModeAllows, Committing;
    CommitNewIs(db, member, limits, op, prepared, now, a, logical);
  }

  /** Rolling back after a commit of a new object removes it with the rest. */
  lemma CommitUndoes(member: MemberId, db: Db, logical: LogicalId, base: Db, op: OperationId, prepared: PreparedObject, a: Announcement)
    requires Inv(member, db) && Undoes(db, logical, base)
    requires op in db.operations && db.operations[op].objectId.None? && prepared.manifest.Id() !in db.objects
    ensures Undoes(Committing(db, op, prepared, a, logical), logical, base)
  {
    hide OfOthers, LinkRows, OthersReservations, UsedReservations, Inv, Committed, ChunkRows;
    var id, ids := prepared.manifest.Id(), LinkedTo(db, logical).Keys;
    NoRows(member, db, id);
    LinkedNew(db, logical, id, |prepared.manifest.targets|);
    UsedNew(db.operations, op, id, ids);
    ChunksNew(db.chunks, ids, id, prepared.chunks);
    RowsNew(db.targetReceipts, ids, id);
    RowsNew(db.originAcks, ids, id);
    MinusNew(db.objects, ids, id, ObjectRow(prepared.manifest, true));
    MinusAbsent(db.relayOutbox, ids, id);
    MinusAbsent(db.localDeliveries, ids, id);
    MinusNew(db.announcements, ids, id, a);
    MinusNew(db.links, ids, id, Link(logical, |prepared.manifest.targets|));
    MinusAbsent(db.relayMetadata, ids, id);
    MinusAbsent(db.deliveries, ids, id);
    MinusAbsent(db.acknowledged, ids, id);
    OutboxNew(db.outbox, ids, id);
    var c := Committing(db, op, prepared, a, logical);
    assert LinkedTo(c, logical).Keys == ids + {id};
    var d, d0 := DeleteObjects(c, ids + {id}), DeleteObjects(db, ids);
    assert d == d0.(operations := d.operations);
    assert Rollback(c, logical) == Rollback(db, logical);
  }

  lemma CommitExtends(member: MemberId, db: Db, logical: LogicalId, ids: seq<ObjectId>, audiences: seq<seq<MemberId>>, expiresAt: nat,
    op: OperationId, prepared: PreparedObject, a: Announcement)
    requires FirstAudiences(db, member, logical, ids, audiences, expiresAt) && |ids| < |audiences|
    requires op in db.operations && prepared.manifest.Id() !in db.objects && prepared.manifest.Id() !in db.links
    requires prepared.manifest.targets == audiences[|ids|] && prepared.manifest.origin == member && prepared.manifest.expiresAt == expiresAt
    ensures FirstAudiences(Committing(db, op, prepared, a, logical), member, logical, ids + [prepared.manifest.Id()], audiences, expiresAt)
  {
    var id, db', ids' := prepared.manifest.Id(), Committing(db, op, prepared, a, logical), ids + [prepared.manifest.Id()];
    LinkedNew(db, logical, id, |prepared.manifest.targets|);
    LinkedInLinks(db, logical, id);
    hide LinkRows, ChunkRows;
    assert id !in ids;
    assert forall other :: other in ids' <==> other in ids || other == id;
    assert LinkedTo(db', logical).Keys == LinkedTo(db, logical).Keys + {id};
    forall i | 0 <= i < |ids'| ensures Audience(db', member, logical, ids'[i], audiences[i], expiresAt) {
      if i < |ids| {
        assert ids'[i] == ids[i];
        assert Audience(db, member, logical, ids[i], audiences[i], expiresAt);
      }
    }
  }

  lemma LinkedInLinks(db: Db, logical: LogicalId, id: ObjectId)
    ensures id in LinkedTo(db, logical) <==> id in db.links && db.links[id].logical == logical
  {
  }

  predicate AudiencesDiffer(audiences: seq<seq<MemberId>>) {
    forall i, j :: 0 <= i < j < |audiences| ==> audiences[i] != audiences[j]
  }

  predicate AudiencesSorted(audiences: seq<seq<MemberId>>) {
    forall i :: 0 <= i < |audiences| ==> Sorted(audiences[i]) == audiences[i]
  }

  lemma ChunksDiffer(s: seq<MemberId>)
    requires StrictlyIncreasing(s)
    ensures AudiencesDiffer(Chunks(s, MAX_TARGETS))
  {
    var cs := Chunks(s, MAX_TARGETS);
    ChunksJoin(s, MAX_TARGETS);
    forall i, j | 0 <= i < j < |cs| ensures cs[i] != cs[j] {
      ChunkAt(s, MAX_TARGETS, i);
      ChunkAt(s, MAX_TARGETS, j);
      assert cs[i][0] == s[i * MAX_TARGETS] && cs[j][0] == s[j * MAX_TARGETS];
    }
  }

  /** What holds before each audience. */
  ghost predicate Ready(db: Db, member: MemberId, logical: LogicalId, base: Db, ids: seq<ObjectId>, audiences: seq<seq<MemberId>>,
    expiresAt: nat)
  {
    && Inv(member, db) && AllUsed(db) && OwnBelow(member, db) && Undoes(db, logical, base)
    && FirstAudiences(db, member, logical, ids, audiences, expiresAt)
    && logical in db.logical && db.logical[logical].expiresAt == expiresAt
    && base.nextSequence <= db.nextSequence && NewOnly(db, logical, base.nextSequence)
  }

  /** The message's objects carry sequences handed out from here on. */
  ghost predicate NewOnly(db: Db, logical: LogicalId, from: nat) {
    forall id :: id in LinkedTo(db, logical) ==> id.manifest.sequence >= from
  }

  lemma CommitNewOnly(db: Db, op: OperationId, prepared: PreparedObject, a: Announcement, logical: LogicalId, from: nat)
    requires op in db.operations && prepared.manifest.Id() !in db.links && NewOnly(db, logical, from) && prepared.manifest.sequence >= from
    ensures NewOnly(Committing(db, op, prepared, a, logical), logical, from)
  {
    LinkedNew(db, logical, prepared.manifest.Id(), |prepared.manifest.targets|);
    hide LinkRows, ChunkRows;
  }

  /** A drawn operation that was already used cannot commit a further audience. */
  lemma UsedOperationFails(db: Db, member: MemberId, limits: Limits, logical: LogicalId, base: Db, ids: seq<ObjectId>,
    audiences: seq<seq<MemberId>>, expiresAt: nat, op: OperationId, hash: nat, prepared: PreparedObject, a: Announcement, now: nat)
    requires Ready(db, member, logical, base, ids, audiences, expiresAt) && |ids| < |audiences| && AudiencesDiffer(audiences)
    requires op in db.operations && prepared.manifest.targets == audiences[|ids|]
    ensures CommitOutgoing(db, member, limits, op, hash, prepared, now, Some(a), Some(logical)).Failed?
  {
    hide Inv, Undoes, OwnBelow, CommitNew, ModeAllows, LinkRows, NewOnly;
    LinkedInLinks(db, logical, prepared.manifest.Id());
    AudienceTargets(db, member, logical, ids, audiences, expiresAt);
    hide Audience;
  }

  lemma AudienceTargets(db: Db, member: MemberId, logical: LogicalId, ids: seq<ObjectId>, audiences: seq<seq<MemberId>>, expiresAt: nat)
    requires FirstAudiences(db, member, logical, ids, audiences, expiresAt)
    ensures forall j :: 0 <= j < |ids| ==> ids[j].manifest.targets == audiences[j]
  {
    forall j | 0 <= j < |ids| ensures ids[j].manifest.targets == audiences[j] {
      assert Audience(db, member, logical, ids[j], audiences[j], expiresAt);
    }
  }

  /** The tables after a fresh reservation. */
  function Reserving(db: Db, op: OperationId, hash: nat): (r: Db)
    ensures op in r.operations
  {
    db.(nextSequence := db.nextSequence + 1, operations := db.operations[op := Operation(hash, db.nextSequence, None)])
  }

  /** A fresh reservation leaves the message as it is. */
  lemma ReserveStep(db: Db, member: MemberId, limits: Limits, logical: LogicalId, base: Db, ids: seq<ObjectId>,
    audiences: seq<seq<MemberId>>, expiresAt: nat, op: OperationId, hash: nat)
    requires Ready(db, member, logical, base, ids, audiences, expiresAt)
    requires op !in db.operations && Reserve(db, limits, op, hash).Done?
    ensures
      var db1 := Reserving(db, op, hash);
      && Reserve(db, limits, op, hash) == Done(db1, Operation(hash, db.nextSequence, None))
      && Inv(member, db1) && Undoes(db1, logical, base) && FirstAudiences(db1, member, logical, ids, audiences, expiresAt)
      && OwnBelow(member, db1) && NewOnly(db1, logical, base.nextSequence)
      && db1.nextSequence == db.nextSequence + 1 && 0 < db.nextSequence <= MAX_LOGICAL_TIME && LinkedTo(db1, logical) == LinkedTo(db, logical)
      && db1.announcements == db.announcements && db1.chunks == db.chunks && db1.logical == db.logical
  {
    hide Inv, Undoes, FirstAudiences, OwnBelow, AllUsed, Persists, NewOnly, LinkRows;
    ReserveKeeps(member, db, limits, op, hash);
    SequencePositive(member, db);
    ReserveUndoes(db, logical, base, op, hash);
    var db1 := Reserving(db, op, hash);
    SameAudiences(db, db1, member, logical, ids, audiences, expiresAt);
    LaterSequence(member, db, db1);
    SameNew(db, db1, logical, base.nextSequence);
  }

  /** A repeated one changes nothing. */
  lemma ReserveAgain(db: Db, limits: Limits, op: OperationId, hash: nat)
    requires op in db.operations
    ensures Reserve(db, limits, op, hash).Done? ==> Reserve(db, limits, op, hash).db == db
  {
  }

  /** The commit of the next audience under the reservation just made. */
  lemma CommitStep(db: Db, db1: Db, member: MemberId, limits: Limits, logical: LogicalId, base: Db, ids: seq<ObjectId>,
    audiences: seq<seq<MemberId>>, expiresAt: nat, op: OperationId, hash: nat, prepared: PreparedObject, a: Announcement, now: nat)
    requires Ready(db, member, logical, base, ids, audiences, expiresAt) && |ids| < |audiences| && op !in db.operations
    requires db1 == Reserving(db, op, hash)
    requires Inv(member, db1) && Undoes(db1, logical, base) && FirstAudiences(db1, member, logical, ids, audiences, expiresAt)
    requires prepared.Valid() && a.manifest == prepared.manifest
    requires prepared.manifest.origin == member && prepared.manifest.sequence == db.nextSequence
    requires prepared.manifest.targets == audiences[|ids|] && prepared.manifest.expiresAt == expiresAt
    requires CommitOutgoing(db1, member, limits, op, hash, prepared, now, Some(a), Some(logical)).Done?
    ensures Ready(CommitOutgoing(db1, member, limits, op, hash, prepared, now, Some(a), Some(logical)).db, member, logical, base,
                  ids + [prepared.manifest.Id()], audiences, expiresAt)
    ensures CommitOutgoing(db1, member, limits, op, hash, prepared, now, Some(a), Some(logical)).db == Committing(db1, op, prepared, a, logical)
    ensures prepared.manifest.Id() !in db1.announcements && forall k :: k in db1.chunks ==> k.0 != prepared.manifest.Id()
  {
    hide Inv, Undoes, FirstAudiences, CommitOutgoing, PreparedObject.Valid, Persists, ChunkRows, AllUsed, OwnBelow, NewOnly;
    var id := prepared.manifest.Id();
    FreshObject(member, db, prepared.manifest);
    NoRows(member, db1, id);
    CommitIs(db1, member, limits, op, hash, prepared, now, a, logical);
    CommitKeeps(member, db1, limits, op, hash, prepared, now, Some(a), Some(logical));
    CommitUndoes(member, db1, logical, base, op, prepared, a);
    CommitExtends(member, db1, logical, ids, audiences, expiresAt, op, prepared, a);
    CommitSequences(db, db1, member, op, hash, prepared, a, logical);
    SameNew(db, db1, logical, base.nextSequence);
    CommitNewOnly(db1, op, prepared, a, logical, base.nextSequence);
  }

  lemma SameNew(db: Db, db1: Db, logical: LogicalId, from: nat)
    requires NewOnly(db, logical, from) && db1.links == db.links
    ensures NewOnly(db1, logical, from)
  {
  }

  lemma CommitSequences(db: Db, db1: Db, member: MemberId, op: OperationId, hash: nat, prepared: PreparedObject, a: Announcement,
    logical: LogicalId)
    requires AllUsed(db) && OwnBelow(member, db) && op !in db.operations && prepared.manifest.sequence == db.nextSequence
    requires db1 == Reserving(db, op, hash)
    ensures AllUsed(Committing(db1, op, prepared, a, logical)) && OwnBelow(member, Committing(db1, op, prepared, a, logical))
  {
    hide ChunkRows;
  }

  lemma SameAudiences(db: Db, db1: Db, member: MemberId, logical: LogicalId, ids: seq<ObjectId>, audiences: seq<seq<MemberId>>, expiresAt: nat)
    requires FirstAudiences(db, member, logical, ids, audiences, expiresAt)
    requires db1 == db.(nextSequence := db1.nextSequence, operations := db1.operations)
    ensures FirstAudiences(db1, member, logical, ids, audiences, expiresAt)
  {
    hide LinkRows;
    forall i | 0 <= i < |ids| ensures Audience(db1, member, logical, ids[i], audiences[i], expiresAt) {
      assert Audience(db, member, logical, ids[i], audiences[i], expiresAt);
    }
  }

  /** A sequence that was never handed out names no stored object of this member. */
  lemma FreshObject(member: MemberId, db: Db, m: Manifest)
    requires OwnBelow(member, db) && m.origin == member && m.sequence >= db.nextSequence
    ensures m.Id() !in db.objects
  {
  }

  // ----- pruning and rolling back before a new attempt -----

  lemma PruneClean(member: MemberId, db: Db, now: nat)
    requires Inv(member, db) && OwnBelow(member, db) && Prune(db, now).Done?
    ensures AllUsed(Prune(db, now).db) && OwnBelow(member, Prune(db, now).db) && Prune(db, now).db.nextSequence == db.nextSequence
  {
    hide Inv, StaleLogical, HasLinks, Unexpired, ExpiredObjects, OfOthers, OthersReservations;
  }

  lemma RollbackClean(member: MemberId, db: Db, logical: LogicalId)
    requires Inv(member, db) && OwnBelow(member, db)
    ensures
      var base := Rollback(db, logical);
      && Inv(member, base) && AllUsed(base) && OwnBelow(member, base) && logical !in base.logical && base.nextSequence == db.nextSequence
  {
    RollbackKeeps(member, db, logical);
    hide Inv, Persists, OfOthers, OthersReservations, LinkRows;
  }

  /** Pruning removes an expired attempt whole and leaves a live one as it is. */
  lemma PrunePartial(member: MemberId, db: Db, now: nat, logical: LogicalId, audiences: seq<seq<MemberId>>)
    requires Inv(member, db) && Partial(db, member, logical, audiences) && Prune(db, now).Done?
    ensures Partial(Prune(db, now).db, member, logical, audiences)
  {
    hide Inv, FirstAudiences, LinkRows, OfOthers, OthersReservations, UsedReservations, Unexpired, HasLinks;
    var db' := Prune(db, now).db;
    if logical in db'.logical {
      var expiresAt := db.logical[logical].expiresAt;
      var ids :| FirstAudiences(db, member, logical, ids, audiences, expiresAt);
      assert expiresAt > now;
      PruneAudiences(member, db, now, logical, ids, audiences, expiresAt);
    }
  }

  lemma PruneAudiences(member: MemberId, db: Db, now: nat, logical: LogicalId, ids: seq<ObjectId>, audiences: seq<seq<MemberId>>, expiresAt: nat)
    requires Inv(member, db) && Prune(db, now).Done? && expiresAt > now
    requires FirstAudiences(db, member, logical, ids, audiences, expiresAt)
    ensures FirstAudiences(Prune(db, now).db, member, logical, ids, audiences, expiresAt)
  {
    hide Inv, StaleLogical, HasLinks, Unexpired, OfOthers, OthersReservations, UsedReservations, LinkRows;
    var db' := Prune(db, now).db;
    forall i | 0 <= i < |ids| ensures Audience(db', member, logical, ids[i], audiences[i], expiresAt) && ids[i] in LinkedTo(db', logical) {
      assert Audience(db, member, logical, ids[i], audiences[i], expiresAt);
      RowOf(member, db, ids[i]);
      LinkedInLinks(db', logical, ids[i]);
    }
    forall id | id in LinkedTo(db', logical) ensures id in ids {
      LinkedInLinks(db', logical, id);
      LinkedInLinks(db, logical, id);
    }
  }

  lemma CountedIds(db: Db, member: MemberId, logical: LogicalId, ids: seq<ObjectId>, audiences: seq<seq<MemberId>>, expiresAt: nat)
    requires FirstAudiences(db, member, logical, ids, audiences, expiresAt)
    ensures |LinkedTo(db, logical)| == |ids|
  {
    hide LinkRows, Audience;
    assert LinkedTo(db, logical).Keys == set id | id in ids;
    DistinctCount(ids);
  }

  // ----- when an audience is accepted -----

  /** The bytes of the first k envelopes. */
  function EnvelopeBytes(draws: nat -> Draw, k: nat): nat {
    if k == 0 then 0 else EnvelopeBytes(draws, k - 1) + if draws(k - 1).Sealed? then |draws(k - 1).envelope| else 0
  }

  /** The operations of the first k draws. */
  function Drawn(draws: nat -> Draw, k: nat): set<OperationId> {
    if k == 0 then {} else Drawn(draws, k - 1) + if draws(k - 1).NoRandom? then {} else {draws(k - 1).operation}
  }

  /** The members that the first k audiences name. */
  function Covered(audiences: seq<seq<MemberId>>, k: nat): nat
    requires k <= |audiences|
  {
    if k == 0 then 0 else Covered(audiences, k - 1) + |audiences[k - 1]|
  }

  /** A reservation is free for audience k: a number, a row, and an operation that was not drawn before. */
  predicate FreeReservation(base: Db, limits: Limits, draws: nat -> Draw, k: nat) {
    && draws(k).Sealed? && draws(k).operation !in base.operations && draws(k).operation !in Drawn(draws, k)
    && |base.operations| + k < limits.operations && base.nextSequence + k < MAX_LOGICAL_TIME
  }

  /** The envelope of audience k can be cut into an object. */
  predicate Packable(roster: Roster, draw: Draw) {
    draw.Sealed? && 0 < |draw.envelope| <= MAX_OBJECT_BYTES && 0 < roster.scope.epoch <= MAX_LOGICAL_TIME
  }

  /** The store has room for audience k after the ones before it. */
  ghost predicate RoomFor(base: Db, limits: Limits, draws: nat -> Draw, k: nat) {
    |base.objects| + k < limits.objects && Total(ReservedBytes(base)) + EnvelopeBytes(draws, k + 1) <= limits.bytes
  }

  /** Audience k can be queued after the ones before it. */
  ghost predicate Queueable(base: Db, limits: Limits, roster: Roster, draws: nat -> Draw, k: nat, now: nat) {
    && FreeReservation(base, limits, draws, k) && Packable(roster, draws(k)) && roster.ValidateAt(now).Ok? && RoomFor(base, limits, draws, k)
  }

  /** The first n audiences can be queued. */
  ghost predicate AllQueueable(base: Db, limits: Limits, roster: Roster, draws: nat -> Draw, n: nat, now: nat) {
    forall k: nat :: k < n ==> Queueable(base, limits, roster, draws, k, now)
  }

  /** What k audiences have added to the tables that the attempt began with. */
  ghost predicate Grown(db: Db, base: Db, logical: LogicalId, audiences: seq<seq<MemberId>>, draws: nat -> Draw, k: nat)
    requires k <= |audiences|
  {
    GrownOperations(db, base, draws, k) && GrownObjects(db, base, draws, k) && Total(LinkedTo(db, logical)) == Covered(audiences, k)
  }

  predicate GrownOperations(db: Db, base: Db, draws: nat -> Draw, k: nat) {
    && db.nextSequence == base.nextSequence + k
    && db.operations.Keys == base.operations.Keys + Drawn(draws, k) && |db.operations| == |base.operations| + k
  }

  ghost predicate GrownObjects(db: Db, base: Db, draws: nat -> Draw, k: nat) {
    |db.objects| == |base.objects| + k && Total(ReservedBytes(db)) == Total(ReservedBytes(base)) + EnvelopeBytes(draws, k)
  }

  /** The audiences fit the message's row and can be addressed before it expires. */
  predicate Addressed(row: Logical, audiences: seq<seq<MemberId>>, now: nat) {
    && row.audienceCount == |audiences| && Covered(audiences, |audiences|) <= row.targetCount
    && now < row.expiresAt <= MAX_LOGICAL_TIME
    && forall i :: 0 <= i < |audiences| ==> 0 < |audiences[i]| <= MAX_TARGETS && DuplicateFree(audiences[i])
  }

  lemma {:induction false} CoveredSplit(audiences: seq<seq<MemberId>>, k: nat)
    requires 0 < k <= |audiences|
    ensures Covered(audiences, k) == |audiences[0]| + Covered(audiences[1..], k - 1)
  {
    if k > 1 { CoveredSplit(audiences, k - 1); }
  }

  /** All audiences name as many members as they join to. */
  lemma {:induction false} CoveredAll(audiences: seq<seq<MemberId>>)
    ensures Covered(audiences, |audiences|) == |Flatten(audiences)|
  {
    if audiences != [] {
      CoveredSplit(audiences, |audiences|);
      CoveredAll(audiences[1..]);
    }
  }

  lemma {:induction false} CoveredGrows(audiences: seq<seq<MemberId>>, j: nat, k: nat)
    requires j <= k <= |audiences|
    ensures Covered(audiences, j) <= Covered(audiences, k)
  {
    if j < k { CoveredGrows(audiences, j, k - 1); }
  }

  lemma ReservationFree(db: Db, base: Db, limits: Limits, logical: LogicalId, audiences: seq<seq<MemberId>>, draws: nat -> Draw, k: nat)
    requires k <= |audiences| && Grown(db, base, logical, audiences, draws, k) && !draws(k).NoRandom?
    ensures draws(k).Sealed? ==>
      (FreeReservation(base, limits, draws, k) <==>
        draws(k).operation !in db.operations && Reserve(db, limits, draws(k).operation, draws(k).hash).Done?)
  {
    hide Total, ReservedBytes, EnvelopeBytes, Covered, LinkRows, Drawn;
    Effects.ReserveEffect(db, limits, draws(k).operation, draws(k).hash);
    hide Reserve;
    assert draws(k).operation in db.operations <==> draws(k).operation in db.operations.Keys;
  }

  lemma EnvelopePacks(member: MemberId, sequence: nat, roster: Roster, row: Logical, audiences: seq<seq<MemberId>>, draw: Draw, k: nat, now: nat)
    requires 0 < sequence <= MAX_LOGICAL_TIME && Addressed(row, audiences, now) && k < |audiences| && draw.Sealed?
    ensures FromOpaque(member, sequence, ObjectPolicy("mesh.chat.text.v1", roster.scope.epoch, audiences[k], row.expiresAt, HOP_LIMIT),
                       draw.envelope).Ok?
       <==> Packable(roster, draw)
  {
    hide FromOpaque, DuplicateFree, Covered;
    FromOpaqueExact(member, sequence, ObjectPolicy("mesh.chat.text.v1", roster.scope.epoch, audiences[k], row.expiresAt, HOP_LIMIT), draw.envelope);
  }

  lemma SlotFree(member: MemberId, db: Db, m: Manifest)
    requires OwnBelow(member, db) && m.origin == member && m.sequence >= db.nextSequence
    ensures m.Id() !in db.objects
    ensures forall id :: id in db.objects ==> !(id.manifest.origin == m.origin && id.manifest.sequence == m.sequence)
  {
  }

  /** The commit of an audience succeeds exactly when the store has room for its object. */
  lemma CommitHasRoom(db: Db, member: MemberId, limits: Limits, logical: LogicalId, draw: Draw, prepared: PreparedObject, a: Announcement, now: nat)
    requires draw.Sealed? && draw.operation !in db.operations && Inv(member, Reserving(db, draw.operation, draw.hash)) && OwnBelow(member, db)
    requires prepared.Valid() && prepared.manifest.origin == member && prepared.manifest.sequence == db.nextSequence
    requires now <= MAX_LOGICAL_TIME && now < prepared.manifest.expiresAt && Effects.HasPlace(db, logical, |prepared.manifest.targets|)
    ensures CommitOutgoing(Reserving(db, draw.operation, draw.hash), member, limits, draw.operation, draw.hash, prepared, now, Some(a),
                           Some(logical)).Done?
       <==> |db.objects| < limits.objects && Total(ReservedBytes(db)) + prepared.manifest.contentLen <= limits.bytes
  {
    hide Inv, Total, ReservedBytes, LinkRows, PreparedObject.Valid, CommitOutgoing, OwnBelow;
    var db1, m := Reserving(db, draw.operation, draw.hash), prepared.manifest;
    SlotFree(member, db, m);
    Effects.CommitEffect(db1, member, limits, draw.operation, draw.hash, prepared, now, Some(a), Some(logical));
    SameRoom(db, db1, limits, logical, m);
    hide Effects.HasRoom, Effects.HasPlace;
  }

  lemma SameRoom(db: Db, db1: Db, limits: Limits, logical: LogicalId, m: Manifest)
    requires db1.objects == db.objects && db1.links == db.links && db1.logical == db.logical
    ensures Effects.HasRoom(db1, limits, m) <==> Effects.HasRoom(db, limits, m)
    ensures Effects.HasPlace(db1, logical, |m.targets|) <==> Effects.HasPlace(db, logical, |m.targets|)
  {
    hide Total, LinkRows;
    assert ReservedBytes(db1) == ReservedBytes(db);
  }

  /** The next audience has a place in the message. */
  lemma PlaceLeft(db: Db, base: Db, logical: LogicalId, audiences: seq<seq<MemberId>>, draws: nat -> Draw, k: nat, now: nat)
    requires k < |audiences| && Grown(db, base, logical, audiences, draws, k) && |LinkedTo(db, logical)| == k
    requires logical in db.logical && Addressed(db.logical[logical], audiences, now)
    ensures Effects.HasPlace(db, logical, |audiences[k]|)
  {
    hide Total, ReservedBytes, EnvelopeBytes, LinkRows, Drawn, DuplicateFree;
    CoveredGrows(audiences, k + 1, |audiences|);
  }

  lemma RoomIs(db: Db, base: Db, limits: Limits, logical: LogicalId, audiences: seq<seq<MemberId>>, draws: nat -> Draw, k: nat)
    requires k <= |audiences| && Grown(db, base, logical, audiences, draws, k) && draws(k).Sealed?
    ensures |db.objects| < limits.objects && Total(ReservedBytes(db)) + |draws(k).envelope| <= limits.bytes <==> RoomFor(base, limits, draws, k)
  {
    hide Total, ReservedBytes, LinkRows, Drawn, Covered;
  }

  lemma BytesGrow(db: Db, db': Db, id: ObjectId, row: ObjectRow)
    requires id !in db.objects && db'.objects == db.objects[id := row]
    ensures Total(ReservedBytes(db')) == Total(ReservedBytes(db)) + row.manifest.contentLen && |db'.objects| == |db.objects| + 1
  {
    hide Total;
    TotalInsert(ReservedBytes(db), id, row.manifest.contentLen);
    assert ReservedBytes(db') == ReservedBytes(db)[id := row.manifest.contentLen];
  }

  lemma LinksGrow(db: Db, db': Db, logical: LogicalId, id: ObjectId, targetCount: nat)
    requires id !in db.links && db'.links == db.links[id := Link(logical, targetCount)]
    ensures Total(LinkedTo(db', logical)) == Total(LinkedTo(db, logical)) + targetCount
  {
    hide Total;
    TotalInsert(LinkedTo(db, logical), id, targetCount);
    assert LinkedTo(db', logical) == LinkedTo(db, logical)[id := targetCount];
  }

  lemma CommittingIs(db: Db, draw: Draw, prepared: PreparedObject, a: Announcement, logical: LogicalId)
    requires draw.Sealed?
    ensures
      var db', id, m :=
        Committing(Reserving(db, draw.operation, draw.hash), draw.operation, prepared, a, logical), prepared.manifest.Id(), prepared.manifest;
      && db'.nextSequence == db.nextSequence + 1 && db'.operations.Keys == db.operations.Keys + {draw.operation}
      && db'.objects == db.objects[id := ObjectRow(m, true)] && db'.links == db.links[id := Link(logical, |m.targets|)]
  {
    hide ChunkRows;
  }

  lemma OneRowMore(rows: map<OperationId, Operation>, rows': map<OperationId, Operation>, op: OperationId)
    requires op !in rows.Keys && rows'.Keys == rows.Keys + {op}
    ensures |rows'| == |rows| + 1
  {
    assert |rows'| == |rows'.Keys| && |rows| == |rows.Keys|;
  }

  lemma NextDrawn(draws: nat -> Draw, k: nat, drawn: set<OperationId>)
    requires draws(k).Sealed?
    ensures drawn + Drawn(draws, k + 1) == drawn + Drawn(draws, k) + {draws(k).operation}
  {
  }

  lemma OperationsGrow(db: Db, db': Db, base: Db, draws: nat -> Draw, k: nat)
    requires GrownOperations(db, base, draws, k) && draws(k).Sealed? && draws(k).operation !in db.operations.Keys
    requires db'.nextSequence == db.nextSequence + 1 && db'.operations.Keys == db.operations.Keys + {draws(k).operation}
    ensures GrownOperations(db', base, draws, k + 1)
  {
    hide Drawn;
    OneRowMore(db.operations, db'.operations, draws(k).operation);
    NextDrawn(draws, k, base.operations.Keys);
  }

  lemma ObjectsGrow(db: Db, db': Db, base: Db, draws: nat -> Draw, k: nat, id: ObjectId, row: ObjectRow)
    requires GrownObjects(db, base, draws, k) && draws(k).Sealed? && row.manifest.contentLen == |draws(k).envelope|
    requires id !in db.objects && db'.objects == db.objects[id := row]
    ensures GrownObjects(db', base, draws, k + 1)
  {
    hide Total, ReservedBytes;
    BytesGrow(db, db', id, row);
  }

  lemma OneMore(db: Db, db': Db, base: Db, logical: LogicalId, audiences: seq<seq<MemberId>>, draws: nat -> Draw, k: nat, id: ObjectId, m: Manifest)
    requires k < |audiences| && Grown(db, base, logical, audiences, draws, k)
    requires draws(k).Sealed? && draws(k).operation !in db.operations.Keys && id !in db.objects && id !in db.links
    requires m.contentLen == |draws(k).envelope| && |m.targets| == |audiences[k]|
    requires db'.nextSequence == db.nextSequence + 1 && db'.operations.Keys == db.operations.Keys + {draws(k).operation}
    requires db'.objects == db.objects[id := ObjectRow(m, true)] && db'.links == db.links[id := Link(logical, |m.targets|)]
    ensures Grown(db', base, logical, audiences, draws, k + 1)
  {
    hide Total, LinkRows, GrownOperations, GrownObjects;
    OperationsGrow(db, db', base, draws, k);
    ObjectsGrow(db, db', base, draws, k, id, ObjectRow(m, true));
    LinksGrow(db, db', logical, id, |m.targets|);
  }

  /** A committed audience adds what it should. */
  lemma CommitGrows(db: Db, base: Db, logical: LogicalId, audiences: seq<seq<MemberId>>, draws: nat -> Draw, k: nat,
    prepared: PreparedObject, a: Announcement)
    requires k < |audiences| && Grown(db, base, logical, audiences, draws, k)
    requires draws(k).Sealed? && draws(k).operation !in db.operations
    requires prepared.manifest.Id() !in db.objects && prepared.manifest.Id() !in db.links
    requires prepared.manifest.contentLen == |draws(k).envelope| && |prepared.manifest.targets| == |audiences[k]|
    ensures Grown(Committing(Reserving(db, draws(k).operation, draws(k).hash), draws(k).operation, prepared, a, logical), base, logical,
                  audiences, draws, k + 1)
  {
    hide Grown, Committing, Reserving;
    CommittingIs(db, draws(k), prepared, a, logical);
    OneMore(db, Committing(Reserving(db, draws(k).operation, draws(k).hash), draws(k).operation, prepared, a, logical), base, logical,
            audiences, draws, k, prepared.manifest.Id(), prepared.manifest);
  }

  lemma QueueableMeans(base: Db, limits: Limits, roster: Roster, draws: nat -> Draw, k: nat, now: nat)
    ensures Queueable(base, limits, roster, draws, k, now) <==>
      && FreeReservation(base, limits, draws, k) && Packable(roster, draws(k)) && roster.ValidateAt(now).Ok? && RoomFor(base, limits, draws, k)
    ensures FreeReservation(base, limits, draws, k) ==> draws(k).Sealed?
  {
    hide RoomFor, Packable, Drawn;
  }

  lemma SequencePositive(member: MemberId, db: Db)
    requires Inv(member, db)
    ensures db.nextSequence > 0
  {
    hide ObjectsOk, ChunksOk, CompleteOk, ModesOk, RelayOk, DeliveriesOk, ReceiptsOk, OutboxOk, LinksOk;
  }

  /** The commit of the next audience under a fresh reservation succeeds exactly when the store has room for it. */
  lemma CommitExact(db: Db, db1: Db, base: Db, member: MemberId, limits: Limits, logical: LogicalId, ids: seq<ObjectId>,
    audiences: seq<seq<MemberId>>, draws: nat -> Draw, prepared: PreparedObject, a: Announcement, now: nat)
    requires |ids| < |audiences| && Grown(db, base, logical, audiences, draws, |ids|) && OwnBelow(member, db) && Inv(member, db1)
    requires draws(|ids|).Sealed? && draws(|ids|).operation !in db.operations && db1 == Reserving(db, draws(|ids|).operation, draws(|ids|).hash)
    requires logical in db.logical && Addressed(db.logical[logical], audiences, now) && |LinkedTo(db, logical)| == |ids|
    requires prepared.Valid() && prepared.manifest.origin == member && prepared.manifest.sequence == db.nextSequence
    requires prepared.manifest.contentLen == |draws(|ids|).envelope| && prepared.manifest.targets == audiences[|ids|]
    requires prepared.manifest.expiresAt == db.logical[logical].expiresAt
    ensures CommitOutgoing(db1, member, limits, draws(|ids|).operation, draws(|ids|).hash, prepared, now, Some(a), Some(logical)).Done?
       <==> RoomFor(base, limits, draws, |ids|)
  {
    hide Inv, OwnBelow, Grown, PreparedObject.Valid, CommitOutgoing, RoomFor, LinkRows, Effects.HasPlace, Covered, DuplicateFree, Reserving, Total,
      ReservedBytes;
    PlaceLeft(db, base, logical, audiences, draws, |ids|, now);
    RoomIs(db, base, limits, logical, audiences, draws, |ids|);
    CommitHasRoom(db, member, limits, logical, draws(|ids|), prepared, a, now);
  }

  /** A message that is not stored is begun unless a size is out of range; nothing is added yet. */
  lemma BeginExact(member: MemberId, base: Db, logical: LogicalId, targetCount: nat, audiences: seq<seq<MemberId>>, draws: nat -> Draw,
    expiresAt: nat, now: nat)
    requires Inv(member, base) && logical !in base.logical && |audiences| <= 5
    requires Addressed(Logical(now, expiresAt, targetCount, |audiences|), audiences, now)
    ensures
      var o := BeginLogical(base, logical, targetCount, |audiences|, expiresAt, now);
      && (o.Done? <==> 1 <= targetCount <= 49 && audiences != [])
      && (o.Done? ==> Grown(o.db, base, logical, audiences, draws, 0))
  {
    hide Inv, Covered, LinkRows, Total, DuplicateFree;
    NoLinksTo(member, base, logical);
    var o := BeginLogical(base, logical, targetCount, |audiences|, expiresAt, now);
    Effects.BeginEffect(base, logical, targetCount, |audiences|, expiresAt, now);
    if o.Done? {
      BeginsEmpty(base, o.db, logical, audiences, draws);
    }
  }

  lemma BeginsEmpty(base: Db, db: Db, logical: LogicalId, audiences: seq<seq<MemberId>>, draws: nat -> Draw)
    requires db == base.(logical := db.logical) && LinkedTo(base, logical) == map[]
    ensures Grown(db, base, logical, audiences, draws, 0)
  {
    hide LinkRows;
    assert LinkedTo(db, logical) == map[] && ReservedBytes(db) == ReservedBytes(base);
    assert base.operations.Keys + {} == base.operations.Keys;
  }

  /** What every end of an audience leaves of the attempt: it can still be undone, and the audiences so far are whole. */
  ghost predicate Holds(db: Db, before: Db, member: MemberId, logical: LogicalId, base: Db, audiences: seq<seq<MemberId>>) {
    && Inv(member, db) && Undoes(db, logical, base) && OwnBelow(member, db) && Partial(db, member, logical, audiences)
    && logical in db.logical && logical in before.logical && db.logical[logical] == before.logical[logical]
    && db.nextSequence >= before.nextSequence && NewOnly(db, logical, base.nextSequence)
  }

  lemma HoldsNow(db: Db, before: Db, member: MemberId, logical: LogicalId, base: Db, ids: seq<ObjectId>, audiences: seq<seq<MemberId>>,
    expiresAt: nat)
    requires Inv(member, db) && Undoes(db, logical, base) && OwnBelow(member, db) && NewOnly(db, logical, base.nextSequence)
    requires FirstAudiences(db, member, logical, ids, audiences, expiresAt)
    requires logical in db.logical && db.logical[logical].expiresAt == expiresAt && db.logical == before.logical
    requires db.nextSequence >= before.nextSequence
    ensures Holds(db, before, member, logical, base, audiences)
  {
    hide Inv, Undoes, OwnBelow, NewOnly, FirstAudiences;
  }

  /** The object cut for audience k under a sequence. */
  predicate CutFor(member: MemberId, sequence: nat, roster: Roster, audience: seq<MemberId>, expiresAt: nat, draw: Draw, p: PreparedObject) {
    && draw.Sealed? && p.Valid() && Flatten(p.chunks) == draw.envelope && p.manifest.contentLen == |draw.envelope|
    && p.manifest.origin == member && p.manifest.sequence == sequence && p.manifest.targets == audience && p.manifest.expiresAt == expiresAt
    && p.manifest.namespace == "mesh.chat.text.v1" && p.manifest.epoch == roster.scope.epoch && p.manifest.hopLimit == HOP_LIMIT
  }

  lemma CutExact(member: MemberId, sequence: nat, roster: Roster, audience: seq<MemberId>, expiresAt: nat, draw: Draw, now: nat)
    requires draw.Sealed? && Sorted(audience) == audience
    ensures
      var p := FromOpaque(member, sequence, ObjectPolicy("mesh.chat.text.v1", roster.scope.epoch, audience, expiresAt, HOP_LIMIT), draw.envelope);
      p.Ok? ==> CutFor(member, sequence, roster, audience, expiresAt, draw, p.value) && 0 < |p.value.chunks| <= MAX_CHUNKS
                && |p.value.chunks| == |p.value.manifest.hashes|
  {
    hide FromOpaque, Sorted;
    FromOpaqueExact(member, sequence, ObjectPolicy("mesh.chat.text.v1", roster.scope.epoch, audience, expiresAt, HOP_LIMIT), draw.envelope);
    hide Manifest.Valid, Manifest.Fits;
  }

  function AnnouncementOf(roster: Roster, draw: Draw, prepared: PreparedObject): Announcement
    requires draw.Sealed?
  {
    Announcement(roster.scope.group, prepared.manifest, draw.signature)
  }

  /** The reservation for draw k is done just when one is free, or again for an operation already used; it keeps the attempt. */
  ghost predicate Reserves(db: Db, base: Db, member: MemberId, limits: Limits, logical: LogicalId, audiences: seq<seq<MemberId>>,
    draws: nat -> Draw, k: nat)
  {
    !draws(k).NoRandom? ==>
      var draw := draws(k);
      var o := Reserve(db, limits, draw.operation, draw.hash);
      && (draw.Sealed? ==> (FreeReservation(base, limits, draws, k) <==> draw.operation !in db.operations && o.Done?))
      && (draw.operation in db.operations ==> After(db, o) == db)
      && (o.Done? && draw.operation !in db.operations ==>
            && o == Done(Reserving(db, draw.operation, draw.hash), Operation(draw.hash, db.nextSequence, None))
            && 0 < db.nextSequence <= MAX_LOGICAL_TIME && Holds(o.db, db, member, logical, base, audiences)
            && LinkedTo(o.db, logical) == LinkedTo(db, logical))
  }

  lemma AudienceReserves(db: Db, base: Db, member: MemberId, limits: Limits, logical: LogicalId, ids: seq<ObjectId>,
    audiences: seq<seq<MemberId>>, draws: nat -> Draw, expiresAt: nat)
    requires |ids| < |audiences| && Grown(db, base, logical, audiences, draws, |ids|)
    requires Ready(db, member, logical, base, ids, audiences, expiresAt)
    ensures Reserves(db, base, member, limits, logical, audiences, draws, |ids|)
  {
    hide Reserve, Reserving, Undoes, Inv, OwnBelow, NewOnly, FirstAudiences, LinkRows, FreeReservation, Holds, Grown, AllUsed;
    var draw := draws(|ids|);
    if draw.NoRandom? { return; }
    ReservationFree(db, base, limits, logical, audiences, draws, |ids|);
    if Reserve(db, limits, draw.operation, draw.hash).Done? {
      if draw.operation in db.operations {
        ReserveAgain(db, limits, draw.operation, draw.hash);
      } else {
        ReserveStep(db, member, limits, logical, base, ids, audiences, expiresAt, draw.operation, draw.hash);
        HoldsNow(Reserving(db, draw.operation, draw.hash), db, member, logical, base, ids, audiences, expiresAt);
      }
    }
  }

  /** Committing audience k under a fresh reservation: done just when there is room, and then everything of it is in place. */
  lemma AudienceCommits(db: Db, base: Db, member: MemberId, limits: Limits, roster: Roster, logical: LogicalId, ids: seq<ObjectId>,
    audiences: seq<seq<MemberId>>, draws: nat -> Draw, expiresAt: nat, prepared: PreparedObject, now: nat)
    requires Ready(db, member, logical, base, ids, audiences, expiresAt) && |ids| < |audiences|
    requires Grown(db, base, logical, audiences, draws, |ids|) && Addressed(db.logical[logical], audiences, now)
    requires draws(|ids|).Sealed? && draws(|ids|).operation !in db.operations
    requires Reserve(db, limits, draws(|ids|).operation, draws(|ids|).hash).Done?
    requires CutFor(member, db.nextSequence, roster, audiences[|ids|], expiresAt, draws(|ids|), prepared)
    ensures
      var draw, ids' := draws(|ids|), ids + [prepared.manifest.Id()];
      var o := CommitOutgoing(Reserving(db, draw.operation, draw.hash), member, limits, draw.operation, draw.hash, prepared, now,
                              Some(AnnouncementOf(roster, draw, prepared)), Some(logical));
      && (o.Done? <==> RoomFor(base, limits, draws, |ids|))
      && (o.Done? ==>
            && Ready(o.db, member, logical, base, ids', audiences, expiresAt) && Holds(o.db, db, member, logical, base, audiences)
            && Carries(o.db, roster, prepared.manifest.Id(), draw) && KeepsContents(db, o.db)
            && Grown(o.db, base, logical, audiences, draws, |ids'|))
  {
    hide Inv, Undoes, OwnBelow, NewOnly, FirstAudiences, LinkRows, Holds, Grown, Reserve, Reserving, CommitOutgoing, RoomFor, Addressed, Carries,
      KeepsContents, Committing, PreparedObject.Valid;
    var draw, db1, a, id :=
      draws(|ids|), Reserving(db, draws(|ids|).operation, draws(|ids|).hash), AnnouncementOf(roster, draws(|ids|), prepared), prepared.manifest.Id();
    CountedIds(db, member, logical, ids, audiences, expiresAt);
    ReserveStep(db, member, limits, logical, base, ids, audiences, expiresAt, draw.operation, draw.hash);
    CommitExact(db, db1, base, member, limits, logical, ids, audiences, draws, prepared, a, now);
    var o := CommitOutgoing(db1, member, limits, draw.operation, draw.hash, prepared, now, Some(a), Some(logical));
    if o.Done? {
      CommitStep(db, db1, member, limits, logical, base, ids, audiences, expiresAt, draw.operation, draw.hash, prepared, a, now);
      FreshObject(member, db, prepared.manifest);
      NoRows(member, db, id);
      CutChunks(prepared);
      CommitCarries(db, db1, draw.operation, prepared, logical, roster, draw, a);
      CommitGrows(db, base, logical, audiences, draws, |ids|, prepared, a);
      CommitSequence(db1, member, limits, draw.operation, draw.hash, prepared, now, Some(a), Some(logical));
      HoldsNow(o.db, db, member, logical, base, ids + [id], audiences, expiresAt);
    }
  }

  lemma CutChunks(p: PreparedObject)
    requires p.Valid()
    ensures |p.chunks| == |p.manifest.hashes|
  {
  }

  // ----- the calls -----

  method CommitAudience(store: Store, roster: Roster, logical: LogicalId, audience: seq<MemberId>, expiresAt: nat, draw: Draw,
    now: nat, records: nat, lives: nat, ghost base: Db, ghost ids: seq<ObjectId>, ghost audiences: seq<seq<MemberId>>, ghost draws: nat -> Draw)
    returns (q: Queued, left: nat, ghost ids': seq<ObjectId>)
    requires Ready(store.db, store.member, logical, base, ids, audiences, expiresAt)
    requires |ids| < |audiences| <= 5 && audience == audiences[|ids|] && AudiencesDiffer(audiences) && AudiencesSorted(audiences)
    requires records <= 65 * |ids| && draw == draws(|ids|)
    requires Grown(store.db, base, logical, audiences, draws, |ids|) && Addressed(store.db.logical[logical], audiences, now)
    modifies store
    ensures Holds(store.db, old(store.db), store.member, logical, base, audiences) && q != Rejected(FfiPressure)
    ensures q.Rejected? ==> |LinkedTo(store.db, logical)| < |audiences|
    ensures q.Accepted? ==>
      && Ready(store.db, store.member, logical, base, ids', audiences, expiresAt)
      && |ids'| == |ids| + 1 && ids' == ids + [ids'[|ids|]] && q.records <= 65 * |ids'|
      && q.records == records + 1 + |ids'[|ids|].manifest.hashes|
      && Carries(store.db, roster, ids'[|ids|], draw) && KeepsContents(old(store.db), store.db)
    ensures q.Accepted? <==> lives >= 2 && Queueable(base, store.limits, roster, draws, |ids|, now)
    ensures q.Crashed? ==> lives < 2
    ensures q.Accepted? ==> left == lives - 2 && Grown(store.db, base, logical, audiences, draws, |ids'|)
  {
    hide Queueable, FreeReservation, Packable, RoomFor, Grown, Addressed, Reserving, Tables.Reserve, FromOpaque, Holds, CutFor, Ready;
    hide Inv, Undoes, FirstAudiences, Tables.CommitOutgoing, PreparedObject.Valid, Roster.ValidateAt, OwnBelow, AllUsed, NewOnly, LinkRows,
      Carries, KeepsContents, Committing, AudiencesDiffer;
    ghost var db, k := store.db, |ids|;
    ids', left := ids, lives;
    ReadyHolds(db, store.member, logical, base, ids, audiences, expiresAt);
    QueueableMeans(base, store.limits, roster, draws, k, now);
    if draw.NoRandom? { return Rejected(InternalInvariant), left, ids'; }
    if left == 0 { return Crashed, left, ids'; }
    AudienceReserves(db, base, store.member, store.limits, logical, ids, audiences, draws, expiresAt);
    var reserved := store.Reserve(draw.operation, draw.hash);
    left := left - 1;
    if reserved.Err? { return Rejected(InternalInvariant), left, ids'; }
    if draw.NotSealed? { return Rejected(InvalidArgument), left, ids'; }
    var policy := ObjectPolicy("mesh.chat.text.v1", roster.scope.epoch, audience, expiresAt, HOP_LIMIT);
    var prepared := FromOpaque(store.member, reserved.value.sequence, policy, draw.envelope);
    if draw.operation !in db.operations {
      EnvelopePacks(store.member, reserved.value.sequence, roster, db.logical[logical], audiences, draw, k, now);
    }
    if prepared.Err? { return Rejected(InvalidArgument), left, ids'; }
    CutExact(store.member, reserved.value.sequence, roster, audience, expiresAt, draw, now);
    var total := records + 1 + |prepared.value.chunks|;
    if total > 65535 { return Rejected(FfiPressure), left, ids'; }
    if roster.ValidateAt(now).Err? { return Rejected(InternalInvariant), left, ids'; }
    if left == 0 { return Crashed, left, ids'; }
    var a := AnnouncementOf(roster, draw, prepared.value);
    if draw.operation in db.operations {
      UsedAgain(db, store.member, store.limits, roster, logical, base, ids, audiences, expiresAt, draw, reserved.value.sequence, prepared.value, now);
    } else {
      AudienceCommits(db, base, store.member, store.limits, roster, logical, ids, audiences, draws, expiresAt, prepared.value, now);
    }
    var committed := store.CommitOutgoing(draw.operation, draw.hash, prepared.value, now, Some(a), Some(logical));
    left := left - 1;
    if committed.Err? { return Rejected(InternalInvariant), left, ids'; }
    ids' := ids + [prepared.value.manifest.Id()];
    return Accepted(total), left, ids';
  }

  lemma ReadyHolds(db: Db, member: MemberId, logical: LogicalId, base: Db, ids: seq<ObjectId>, audiences: seq<seq<MemberId>>, expiresAt: nat)
    requires Ready(db, member, logical, base, ids, audiences, expiresAt)
    ensures Holds(db, db, member, logical, base, audiences) && |LinkedTo(db, logical)| == |ids|
    ensures logical in db.logical && db.logical[logical].expiresAt == expiresAt
  {
    hide Inv, Undoes, OwnBelow, NewOnly, FirstAudiences, LinkRows, Holds;
    CountedIds(db, member, logical, ids, audiences, expiresAt);
    HoldsNow(db, db, member, logical, base, ids, audiences, expiresAt);
  }

  lemma UsedAgain(db: Db, member: MemberId, limits: Limits, roster: Roster, logical: LogicalId, base: Db, ids: seq<ObjectId>,
    audiences: seq<seq<MemberId>>, expiresAt: nat, draw: Draw, sequence: nat, prepared: PreparedObject, now: nat)
    requires Ready(db, member, logical, base, ids, audiences, expiresAt) && |ids| < |audiences| && AudiencesDiffer(audiences)
    requires draw.Sealed? && draw.operation in db.operations
    requires CutFor(member, sequence, roster, audiences[|ids|], expiresAt, draw, prepared)
    ensures CommitOutgoing(db, member, limits, draw.operation, draw.hash, prepared, now, Some(AnnouncementOf(roster, draw, prepared)),
                           Some(logical)).Failed?
  {
    hide Ready, CommitOutgoing, PreparedObject.Valid, AudiencesDiffer;
    UsedOperationFails(db, member, limits, logical, base, ids, audiences, expiresAt, draw.operation, draw.hash, prepared,
                       AnnouncementOf(roster, draw, prepared), now);
  }

  lemma LaterSequence(member: MemberId, db: Db, db1: Db)
    requires OwnBelow(member, db) && db1.objects == db.objects && db.nextSequence <= db1.nextSequence
    ensures OwnBelow(member, db1)
  {
  }

  lemma CommitSequence(db: Db, member: MemberId, limits: Limits, op: OperationId, hash: nat, prepared: PreparedObject, now: nat,
    announcement: Option<Announcement>, logical: Option<LogicalId>)
    ensures After(db, CommitOutgoing(db, member, limits, op, hash, prepared, now, announcement, logical)).nextSequence == db.nextSequence
    ensures After(db, CommitOutgoing(db, member, limits, op, hash, prepared, now, announcement, logical)).logical == db.logical
  {
    hide InsertManifest, ChunkRows, ChunksClash, Claimed, LinkLogical, ModeAllows, DeliverLegacy, RecordAnnouncement;
  }

  /** The logical row, then one commit per audience in order. */
  method QueueAudiences(store: Store, roster: Roster, logical: LogicalId, audiences: seq<seq<MemberId>>, targetCount: nat,
    expiresAt: nat, draws: nat -> Draw, now: nat, lives: nat)
    returns (q: Queued)
    requires Inv(store.member, store.db) && AllUsed(store.db) && OwnBelow(store.member, store.db) && logical !in store.db.logical
    requires |audiences| <= 5 && AudiencesDiffer(audiences) && AudiencesSorted(audiences)
    requires Addressed(Logical(now, expiresAt, targetCount, |audiences|), audiences, now)
    modifies store
    ensures q.Accepted? <==>
      && lives >= 1 + 2 * |audiences| && 1 <= targetCount <= 49 && audiences != []
      && AllQueueable(old(store.db), store.limits, roster, draws, |audiences|, now)
    ensures q.Crashed? ==> lives < 1 + 2 * |audiences|
    ensures Inv(store.member, store.db) && OwnBelow(store.member, store.db) && Undoes(store.db, logical, old(store.db))
    ensures store.db.nextSequence >= old(store.db.nextSequence)
    ensures Partial(store.db, store.member, logical, audiences)
    ensures q.Accepted? ==> Full(store.db, store.member, logical, audiences)
    ensures q.Accepted? ==> SealedFor(store.db, store.member, roster, logical, audiences, draws, q.records)
    ensures q.Accepted? ==> store.db.logical[logical] == Logical(now, expiresAt, targetCount, |audiences|)
    ensures NewOnly(store.db, logical, old(store.db.nextSequence)) && (q.Rejected? ==> Incomplete(store.db, logical))
    ensures q != Rejected(FfiPressure)
  {
    hide Inv, Undoes, OwnBelow, AllUsed, BeginLogical, Ready, Full, Partial, AudiencesDiffer, AudiencesSorted, Rollback, NewOnly, LinkRows,
      SealedFor, Carries, KeepsContents, Queueable, Grown, Addressed, AllCarry, AllQueueable, Holds, Records;
    ghost var base := store.db;
    BeginExact(store.member, base, logical, targetCount, audiences, draws, expiresAt, now);
    AbsentUndoes(store.member, base, logical);
    SelfUndoes(base, logical);
    AbsentPartial(base, store.member, logical, audiences);
    AbsentNew(store.member, base, logical);
    if lives == 0 { return Crashed; }
    var begun := store.BeginLogicalMessage(logical, targetCount, |audiences|, expiresAt, now);
    if begun.Err? { return Rejected(InternalInvariant); }
    ghost var ids: seq<ObjectId> := [];
    BeginReady(store.member, base, logical, targetCount, audiences, expiresAt, now);
    ReadyMeans(store.db, store.member, logical, base, ids, audiences, expiresAt);
    NothingYet(store.db, base, store.limits, roster, draws, now);
    var left: nat, records: nat, i: nat := lives - 1, 0, 0;
    while i < |audiences|
      invariant i == |ids| <= |audiences| && records <= 65 * i
      invariant Ready(store.db, store.member, logical, base, ids, audiences, expiresAt)
      invariant logical in store.db.logical && store.db.logical[logical] == Logical(now, expiresAt, targetCount, |audiences|)
      invariant store.db.nextSequence >= base.nextSequence
      invariant AllCarry(store.db, roster, ids, draws) && records == Records(ids)
      invariant left == lives - 1 - 2 * i && Grown(store.db, base, logical, audiences, draws, i)
      invariant AllQueueable(base, store.limits, roster, draws, i, now)
    {
      ghost var before, earlier := store.db, ids;
      q, left, ids := CommitAudience(store, roster, logical, audiences[i], expiresAt, draws(i), now, records, left, base, ids, audiences, draws);
      HoldsMeans(store.db, before, store.member, logical, base, audiences);
      NextQueueable(base, store.limits, roster, draws, i, |audiences|, now);
      if !q.Accepted? { return; }
      CarryNext(before, store.db, roster, earlier, ids, draws);
      records, i := q.records, i + 1;
    }
    ReadyMeans(store.db, store.member, logical, base, ids, audiences, expiresAt);
    ReadySealed(store.db, store.member, roster, logical, base, ids, audiences, expiresAt, draws, records);
    return Accepted(records);
  }

  lemma NothingYet(db: Db, base: Db, limits: Limits, roster: Roster, draws: nat -> Draw, now: nat)
    ensures AllCarry(db, roster, [], draws) && AllQueueable(base, limits, roster, draws, 0, now) && Records([]) == 0
  {
  }

  lemma HoldsMeans(db: Db, before: Db, member: MemberId, logical: LogicalId, base: Db, audiences: seq<seq<MemberId>>)
    requires Holds(db, before, member, logical, base, audiences)
    ensures Inv(member, db) && Undoes(db, logical, base) && OwnBelow(member, db) && Partial(db, member, logical, audiences)
    ensures logical in db.logical && logical in before.logical && db.logical[logical] == before.logical[logical]
    ensures db.nextSequence >= before.nextSequence && NewOnly(db, logical, base.nextSequence)
  {
  }

  lemma NextQueueable(base: Db, limits: Limits, roster: Roster, draws: nat -> Draw, k: nat, n: nat, now: nat)
    requires AllQueueable(base, limits, roster, draws, k, now) && k < n
    ensures Queueable(base, limits, roster, draws, k, now) ==> AllQueueable(base, limits, roster, draws, k + 1, now)
    ensures !Queueable(base, limits, roster, draws, k, now) ==> !AllQueueable(base, limits, roster, draws, n, now)
  {
    hide Queueable;
  }

  lemma CarryNext(db: Db, db': Db, roster: Roster, ids: seq<ObjectId>, ids': seq<ObjectId>, draws: nat -> Draw)
    requires AllCarry(db, roster, ids, draws) && KeepsContents(db, db')
    requires |ids'| == |ids| + 1 && ids' == ids + [ids'[|ids|]] && Carries(db', roster, ids'[|ids|], draws(|ids|))
    ensures AllCarry(db', roster, ids', draws) && Records(ids') == Records(ids) + 1 + |ids'[|ids|].manifest.hashes|
  {
    hide KeepsContents, Carries;
    CarryOn(db, db', roster, ids, draws);
    assert ids'[..|ids|] == ids;
  }

  lemma ReadyMeans(db: Db, member: MemberId, logical: LogicalId, base: Db, ids: seq<ObjectId>, audiences: seq<seq<MemberId>>, expiresAt: nat)
    requires Ready(db, member, logical, base, ids, audiences, expiresAt)
    ensures Inv(member, db) && OwnBelow(member, db) && Undoes(db, logical, base) && Partial(db, member, logical, audiences)
    ensures NewOnly(db, logical, base.nextSequence)
    ensures logical in db.logical && (|ids| == |audiences| ==> Full(db, member, logical, audiences))
  {
    hide Inv, OwnBelow, AllUsed, Undoes, FirstAudiences, NewOnly;
  }

  lemma ReadySealed(db: Db, member: MemberId, roster: Roster, logical: LogicalId, base: Db, ids: seq<ObjectId>, audiences: seq<seq<MemberId>>,
    expiresAt: nat, draws: nat -> Draw, records: nat)
    requires Ready(db, member, logical, base, ids, audiences, expiresAt) && |ids| == |audiences| && AllCarry(db, roster, ids, draws)
    requires records == Records(ids)
    ensures SealedFor(db, member, roster, logical, audiences, draws, records)
  {
    hide Inv, OwnBelow, AllUsed, Undoes, FirstAudiences, NewOnly, AllCarry;
  }

  lemma AbsentNew(member: MemberId, db: Db, logical: LogicalId)
    requires Inv(member, db) && logical !in db.logical
    ensures NewOnly(db, logical, db.nextSequence)
  {
    hide Inv, LinkRows;
    NoLinksTo(member, db, logical);
  }

  lemma SelfUndoes(base: Db, logical: LogicalId)
    requires Rollback(base, logical) == base
    ensures Undoes(base, logical, base)
  {
    hide Rollback;
  }

  lemma AbsentPartial(db: Db, member: MemberId, logical: LogicalId, audiences: seq<seq<MemberId>>)
    requires logical !in db.logical
    ensures Partial(db, member, logical, audiences)
  {
  }

  lemma BeginReady(member: MemberId, base: Db, logical: LogicalId, targetCount: nat, audiences: seq<seq<MemberId>>, expiresAt: nat, now: nat)
    requires Inv(member, base) && AllUsed(base) && OwnBelow(member, base) && logical !in base.logical
    requires BeginLogical(base, logical, targetCount, |audiences|, expiresAt, now).Done?
    ensures
      var db := BeginLogical(base, logical, targetCount, |audiences|, expiresAt, now).db;
      && Ready(db, member, logical, base, [], audiences, expiresAt) && db.nextSequence == base.nextSequence
      && db.logical[logical] == Logical(now, expiresAt, targetCount, |audiences|)
  {
    hide Inv, Undoes, Persists, LinkRows;
    var row := Logical(now, expiresAt, targetCount, |audiences|);
    var db := base.(logical := base.logical[logical := row]);
    BeginKeeps(member, base, logical, targetCount, |audiences|, expiresAt, now);
    BeginUndoes(member, base, logical, row);
    assert NewOnly(db, logical, base.nextSequence);
    assert BeginLogical(base, logical, targetCount, |audiences|, expiresAt, now).db == db;
  }

  /** The tables once what has expired is pruned. */
  function Pruned(db: Db, now: nat): Db { After(db, Prune(db, now)) }

  predicate Sendable(plaintext: Bytes, now: nat) { 0 < |plaintext| <= MAX_PLAINTEXT && 0 < now && now + LIFETIME <= MAX_LOGICAL_TIME }

  /** The tables that a call starts from: pruned, unless its arguments are refused at once. */
  function StartTables(db: Db, plaintext: Bytes, now: nat): Db { if Sendable(plaintext, now) then Pruned(db, now) else db }

  /** The message as it is stored has the size of this roster, if it is stored. */
  ghost predicate SameSize(db: Db, member: MemberId, policy: Policy, logical: LogicalId)
    requires BroadcastAudiences(member, policy.members).Ok?
  {
    logical in db.logical ==>
      && db.logical[logical].targetCount == |policy.members| - 1
      && db.logical[logical].audienceCount == |BroadcastAudiences(member, policy.members).value|
  }

  /** The call gets as far as looking for the message. */
  ghost predicate Looks(db: Db, member: MemberId, plaintext: Bytes, policy: Option<Policy>, logical: LogicalId, now: nat) {
    && Sendable(plaintext, now) && Prune(db, now).Done? && policy.Some? && BroadcastAudiences(member, policy.value.members).Ok?
    && SameSize(Pruned(db, now), member, policy.value, logical)
  }

  /** The call replaces or adds the message. */
  ghost predicate Attempts(db: Db, member: MemberId, plaintext: Bytes, policy: Option<Policy>, logical: LogicalId, now: nat) {
    Looks(db, member, plaintext, policy, logical, now) && Incomplete(Pruned(db, now), logical)
  }

  /** The call finds the message queued already. */
  ghost predicate AlreadyQueued(db: Db, member: MemberId, plaintext: Bytes, policy: Option<Policy>, logical: LogicalId, now: nat) {
    Looks(db, member, plaintext, policy, logical, now) && !Incomplete(Pruned(db, now), logical)
  }

  /** The transactions of an attempt: pruning, taking away what is stored of the message, its row, and two for each audience. */
  function Transactions(db: Db, logical: LogicalId, now: nat, audienceCount: nat): nat {
    2 + 2 * audienceCount + if logical in Pruned(db, now).logical then 1 else 0
  }

  /**
   * When an attempt is accepted: the process lives long enough, there is somebody to address, and every audience can be queued
   * in the tables that pruning and taking away the old message leave.
   */
  ghost predicate Accepts(db: Db, member: MemberId, limits: Limits, policy: Policy, logical: LogicalId, draws: nat -> Draw, now: nat, lives: nat)
    requires BroadcastAudiences(member, policy.members).Ok?
  {
    var n := |BroadcastAudiences(member, policy.members).value|;
    && lives >= Transactions(db, logical, now, n) && |policy.members| > 1
    && AllQueueable(Rollback(Pruned(db, now), logical), limits, policy.roster, draws, n, now)
  }

  lemma RosterAddressed(local: MemberId, members: seq<MemberId>, now: nat, expiresAt: nat)
    requires BroadcastAudiences(local, members).Ok? && now < expiresAt <= MAX_LOGICAL_TIME
    ensures
      var audiences := BroadcastAudiences(local, members).value;
      && Addressed(Logical(now, expiresAt, |members| - 1, |audiences|), audiences, now)
      && (audiences != [] <==> |members| > 1) && |members| <= 50
  {
    hide BroadcastAudiences, Covered;
    AudiencesPartition(local, members);
    CoveredAll(BroadcastAudiences(local, members).value);
  }

  /** Something of the message is stored. */
  ghost predicate Remains(db: Db, logical: LogicalId) { logical in db.logical || LinkedTo(db, logical) != map[] }

  const MAX_PLAINTEXT: nat := 48 * 1024

  /** Which unexpired entries of the outbox a call takes away: those of the message it replaces, once it has replaced it. */
  ghost predicate Takes(before: Db, after: Db, attempts: bool, finished: bool, logical: LogicalId) {
    forall id :: id in before.outbox ==>
      && (id !in after.outbox ==> attempts && id in LinkedTo(before, logical))
      && (attempts && finished && id in LinkedTo(before, logical) ==> id !in after.outbox)
  }

  /**
   * Queues one text for the whole roster. `lives` transactions run before the process dies; a dying call cleans up nothing.
   * A refused attempt leaves exactly what rolling the message back leaves, but for sequences already handed out; a call refused
   * before that leaves the tables it started from, the stored message included.
   */
  method EnqueueText(store: Store, plaintext: Bytes, policy: Option<Policy>, logical: LogicalId, draws: nat -> Draw, now: nat, lives: nat)
    returns (q: Queued)
    requires Inv(store.member, store.db) && OwnBelow(store.member, store.db)
    modifies store
    ensures Inv(store.member, store.db) && OwnBelow(store.member, store.db)
    ensures store.db.nextSequence >= old(store.db.nextSequence)
    ensures !Attempts(old(store.db), store.member, plaintext, policy, logical, now) ==>
      && (q.Accepted? ==> q == Accepted(1) && AlreadyQueued(old(store.db), store.member, plaintext, policy, logical, now))
      && (q.Rejected? ==> !AlreadyQueued(old(store.db), store.member, plaintext, policy, logical, now))
      && (q.Crashed? ==> lives == 0)
      && store.db == if q.Crashed? then old(store.db) else StartTables(old(store.db), plaintext, now)
    ensures Attempts(old(store.db), store.member, plaintext, policy, logical, now) && q.Rejected? ==>
      store.db == Rollback(Pruned(old(store.db), now), logical).(nextSequence := store.db.nextSequence)
    ensures Attempts(old(store.db), store.member, plaintext, policy, logical, now) && q.Accepted? ==>
      && Full(store.db, store.member, logical, BroadcastAudiences(store.member, policy.value.members).value)
      && SealedFor(store.db, store.member, policy.value.roster, logical, BroadcastAudiences(store.member, policy.value.members).value, draws,
                   q.records)
      && Undoes(store.db, logical, Rollback(Pruned(old(store.db), now), logical))
    ensures Attempts(old(store.db), store.member, plaintext, policy, logical, now) ==>
      && (q.Accepted? <==> Accepts(old(store.db), store.member, store.limits, policy.value, logical, draws, now, lives))
      && (q.Crashed? ==> lives < Transactions(old(store.db), logical, now, |BroadcastAudiences(store.member, policy.value.members).value|))
    ensures q.Rejected? ==>
      (Remains(store.db, logical) <==>
        !Attempts(old(store.db), store.member, plaintext, policy, logical, now) && logical in StartTables(old(store.db), plaintext, now).logical)
    ensures
      Takes(Pruned(old(store.db), now), store.db, Attempts(old(store.db), store.member, plaintext, policy, logical, now), !q.Crashed?, logical)
    ensures policy.Some? && BroadcastAudiences(store.member, policy.value.members).Ok? ==>
      var audiences := BroadcastAudiences(store.member, policy.value.members).value;
      Partial(old(store.db), store.member, logical, audiences) ==>
        && Partial(store.db, store.member, logical, audiences)
        && (q.Accepted? ==> Full(store.db, store.member, logical, audiences))
    ensures q != Rejected(FfiPressure)
  {
    hide Inv, Undoes, Partial, Full, OwnBelow, AllUsed, Prune, Rollback, BroadcastAudiences, Summary, NewOnly, LinkRows, Takes, Remains,
      SealedFor, AllQueueable, Addressed;
    ghost var before := store.db;
    ghost var attempts := Attempts(before, store.member, plaintext, policy, logical, now);
    RemainsStored(store.member, before, logical);
    UntouchedTakes(before, now, before, attempts, logical);
    if plaintext == [] || |plaintext| > MAX_PLAINTEXT || now == 0 { return Rejected(InvalidArgument); }
    var expiresAt := now + LIFETIME;
    if expiresAt > MAX_LOGICAL_TIME { return Rejected(InvalidArgument); }
    if lives == 0 { return Crashed; }
    var pruned := store.PruneExpired(now);
    PruneKeeps(store.member, before, now);
    if pruned.Err? { return Rejected(InternalInvariant); }
    PruneClean(store.member, before, now);
    ghost var clean := store.db;
    RemainsStored(store.member, clean, logical);
    UntouchedTakes(before, now, clean, attempts, logical);
    if policy.None? { return Rejected(StaleRequest); }
    var members := policy.value.members;
    var derived := BroadcastAudiences(store.member, members);
    if derived.Err? { return Rejected(InvalidArgument); }
    var audiences := derived.value;
    RosterAudiences(store.member, members);
    RosterAddressed(store.member, members, now, expiresAt);
    if Partial(before, store.member, logical, audiences) { PrunedPartial(store.member, before, now, logical, audiences); }
    var existing := store.LogicalDeliverySummary(logical, now);
    SummaryExact(store.member, clean, logical, now);
    if existing.Err? { return Rejected(InternalInvariant); }
    StoredSummary(store.member, clean, logical, now);
    var left := lives - 1;
    if existing.value.Some? {
      var summary := existing.value.value;
      if summary.targetCount != |members| - 1 || summary.audienceCount != |audiences| { return Rejected(InvalidArgument); }
      if summary.committedAudiences == summary.audienceCount {
        if Partial(clean, store.member, logical, audiences) { CompleteIsFull(store.member, clean, logical, audiences, now); }
        return Accepted(1);
      }
      if left == 0 { return Crashed; }
      assert Incomplete(store.db, logical);
      store.RollbackLogicalMessage(logical);
      left := left - 1;
    } else {
      AbsentUndoes(store.member, clean, logical);
    }
    assert attempts;
    RollbackClean(store.member, clean, logical);
    ghost var base := store.db;
    assert base == Rollback(clean, logical);
    q := QueueAudiences(store, policy.value.roster, logical, audiences, |members| - 1, expiresAt, draws, now, left);
    ReplacedTakes(store.member, clean, store.db, logical, !q.Crashed?);
    if q.Rejected? {
      ghost var failed := store.db;
      assert Incomplete(store.db, logical);
      store.RollbackLogicalMessage(logical);
      RollbackClean(store.member, failed, logical);
      UndoneIs(failed, logical, base);
      AbsentPartial(store.db, store.member, logical, audiences);
      RemainsStored(store.member, store.db, logical);
      UndoneTakes(store.member, clean, store.db, logical);
    }
  }

  /** Links exist only for stored messages. */
  lemma RemainsStored(member: MemberId, db: Db, logical: LogicalId)
    requires Inv(member, db)
    ensures Remains(db, logical) <==> logical in db.logical
  {
    hide Inv, LinkRows;
    if logical !in db.logical { NoLinksTo(member, db, logical); }
  }

  lemma UntouchedTakes(db: Db, now: nat, after: Db, attempts: bool, logical: LogicalId)
    requires after == db || after == Pruned(db, now)
    ensures Takes(Pruned(db, now), after, attempts, false, logical) && (!attempts ==> Takes(Pruned(db, now), after, attempts, true, logical))
  {
    hide Prune, LinkRows;
    PruneOutbox(db, now);
  }

  lemma PruneOutbox(db: Db, now: nat)
    ensures Pruned(db, now).outbox <= db.outbox
  {
    hide StaleLogical, HasLinks, ExpiredObjects, Unexpired, OfOthers, OthersReservations, UsedReservations;
  }

  lemma RollbackOutbox(db: Db, logical: LogicalId)
    ensures Rollback(db, logical).outbox == db.outbox - LinkedTo(db, logical).Keys
  {
    hide OfOthers, OthersReservations, UsedReservations, LinkRows;
  }

  /** A linked object was committed under a sequence already handed out. */
  lemma LinkedSequence(member: MemberId, db: Db, logical: LogicalId, id: ObjectId)
    requires Inv(member, db) && id in LinkedTo(db, logical)
    ensures id.manifest.sequence < db.nextSequence
  {
    hide ObjectsOk, ChunksOk, CompleteOk, ModesOk, RelayOk, DeliveriesOk, ReceiptsOk, OutboxOk, WithinTotals;
    assert Committed(db.operations, id);
    var op :| op in db.operations && db.operations[op].objectId == Some(id);
  }

  lemma ReplacedTakes(member: MemberId, clean: Db, after: Db, logical: LogicalId, finished: bool)
    requires Inv(member, clean) && Undoes(after, logical, Rollback(clean, logical)) && NewOnly(after, logical, Rollback(clean, logical).nextSequence)
    requires Rollback(clean, logical).nextSequence == clean.nextSequence
    ensures Takes(clean, after, true, finished, logical)
  {
    hide Inv, Rollback, LinkRows;
    RollbackOutbox(clean, logical);
    RollbackOutbox(after, logical);
    forall id | id in clean.outbox && id in LinkedTo(clean, logical) ensures id !in after.outbox {
      LinkedSequence(member, clean, logical, id);
      assert id !in Rollback(after, logical).outbox;
    }
    forall id | id in clean.outbox && id !in LinkedTo(clean, logical) ensures id in after.outbox {
      assert id in Rollback(after, logical).outbox;
    }
  }

  lemma UndoneTakes(member: MemberId, clean: Db, after: Db, logical: LogicalId)
    requires after == Rollback(clean, logical).(nextSequence := after.nextSequence)
    ensures Takes(clean, after, true, true, logical)
  {
    hide Rollback, LinkRows;
    RollbackOutbox(clean, logical);
  }

  lemma UndoneIs(db: Db, logical: LogicalId, base: Db)
    requires Undoes(db, logical, base)
    ensures Rollback(db, logical) == base.(nextSequence := db.nextSequence)
  {
    hide Rollback;
  }

  lemma PrunedPartial(member: MemberId, db: Db, now: nat, logical: LogicalId, audiences: seq<seq<MemberId>>)
    requires Inv(member, db) && Prune(db, now).Done? && Partial(db, member, logical, audiences)
    ensures Partial(Pruned(db, now), member, logical, audiences)
  {
    hide Inv, Partial, Prune;
    PrunePartial(member, db, now, logical, audiences);
  }

  /** The summary of a message that is not stored, and the counts of one that is. */
  lemma StoredSummary(member: MemberId, db: Db, logical: LogicalId, now: nat)
    requires Inv(member, db) && Summary(db, logical, now).Ok?
    ensures Summary(db, logical, now).value.None? <==> logical !in db.logical
    ensures Summary(db, logical, now).value.Some? ==>
      var s, row := Summary(db, logical, now).value.value, db.logical[logical];
      && s.targetCount == row.targetCount && s.audienceCount == row.audienceCount
      && s.committedAudiences == |LinkedTo(db, logical)| <= s.audienceCount
  {
    hide LinkRows, Total, Inv;
    if logical in db.logical { LinkedWithinTotals(member, db, logical); }
  }

  /** Counting all audiences means having all of them. */
  lemma CompleteIsFull(member: MemberId, db: Db, logical: LogicalId, audiences: seq<seq<MemberId>>, now: nat)
    requires Partial(db, member, logical, audiences) && logical in db.logical && |LinkedTo(db, logical)| == |audiences|
    ensures Full(db, member, logical, audiences)
  {
    hide FirstAudiences, LinkRows;
    var ids :| FirstAudiences(db, member, logical, ids, audiences, db.logical[logical].expiresAt);
    CountedIds(db, member, logical, ids, audiences, db.logical[logical].expiresAt);
  }

  lemma RosterAudiences(local: MemberId, members: seq<MemberId>)
    requires BroadcastAudiences(local, members).Ok?
    ensures
      var audiences := BroadcastAudiences(local, members).value;
      |audiences| <= 5 && AudiencesDiffer(audiences) && AudiencesSorted(audiences) && |members| > 0
  {
    AudiencesPartition(local, members);
    var others := Without(Sorted(members), local);
    WithoutSize(Sorted(members), local);
    ChunksDiffer(others);
    var audiences := BroadcastAudiences(local, members).value;
    forall i | 0 <= i < |audiences| ensures Sorted(audiences[i]) == audiences[i] {
      SortedUnique(Sorted(audiences[i]), audiences[i]);
    }
  }

  // ----- what the outcomes mean -----

  /** Nothing of the message: no row, no link, and no row in any table of an object that belonged to it. */
  ghost predicate NoTrace(db: Db, logical: LogicalId, objects: set<ObjectId>) {
    && logical !in db.logical && LinkedTo(db, logical) == map[]
    && db.objects.Keys !! objects && db.outbox !! objects && db.links.Keys !! objects && db.announcements.Keys !! objects
    && db.relayOutbox.Keys !! objects && db.relayMetadata.Keys !! objects
    && db.localDeliveries.Keys !! objects && db.deliveries.Keys !! objects && db.acknowledged.Keys !! objects
    && (forall k :: k in db.chunks ==> k.0 !in objects)
    && (forall k :: k in db.targetReceipts ==> k.0 !in objects)
    && (forall k :: k in db.originAcks ==> k.0 !in objects)
    && (forall op :: op in db.operations ==> !NamesOne(db.operations[op], objects))
  }

  lemma RollbackUnlinks(member: MemberId, db: Db, logical: LogicalId)
    requires Inv(member, db)
    ensures LinkedTo(Rollback(db, logical), logical) == map[]
  {
    RollbackKeeps(member, db, logical);
    hide Inv, Persists, OfOthers, OthersReservations, UsedReservations, LinkRows;
    NoLinksTo(member, Rollback(db, logical), logical);
  }

  /** After a rollback nothing of the message is left. */
  lemma RollbackTraceless(member: MemberId, db: Db, logical: LogicalId)
    requires Inv(member, db)
    ensures NoTrace(Rollback(db, logical), logical, LinkedTo(db, logical).Keys)
  {
    RollbackUnlinks(member, db, logical);
    hide Inv, LinkRows;
  }

  /** What belongs to other objects and other messages is as before the rollback. */
  lemma RollbackSparesOthers(db: Db, logical: LogicalId)
    ensures
      var db', gone := Rollback(db, logical), LinkedTo(db, logical).Keys;
      && db'.logical == db.logical - {logical} && db'.objects == db.objects - gone && db'.outbox == db.outbox - gone
      && db'.links == db.links - gone && db'.announcements == db.announcements - gone
      && db'.localDeliveries == db.localDeliveries - gone && db'.deliveries == db.deliveries - gone
      && db'.relayMetadata == db.relayMetadata - gone
      && db'.chunks == OfOthers(db.chunks, gone) && db'.targetReceipts == OfOthers(db.targetReceipts, gone)
      && db'.relayReceipts == db.relayReceipts && db'.relayAcks == db.relayAcks
  {
    hide OfOthers, OthersReservations, UsedReservations, LinkRows;
  }

  /** A member is the target of exactly one of the message's objects. */
  ghost predicate ReachedOnce(db: Db, logical: LogicalId, x: MemberId) {
    exists id :: id in LinkedTo(db, logical) && x in id.manifest.targets
      && forall other :: other in LinkedTo(db, logical) && x in other.manifest.targets ==> other == id
  }

  /**
   * A queued message is one object per audience of the roster: every other member is the target of exactly one of them,
   * nobody else is a target, and every object has between one and ten targets.
   */
  lemma FullReachesRoster(db: Db, member: MemberId, logical: LogicalId, members: seq<MemberId>)
    requires BroadcastAudiences(member, members).Ok?
    requires Full(db, member, logical, BroadcastAudiences(member, members).value)
    ensures forall x :: x in members && x != member ==> ReachedOnce(db, logical, x)
    ensures forall id, x :: id in LinkedTo(db, logical) && x in id.manifest.targets ==> x in members && x != member
    ensures forall id :: id in LinkedTo(db, logical) ==> 0 < |id.manifest.targets| <= MAX_TARGETS
    ensures |LinkedTo(db, logical)| == (|members| - 1 + 9) / 10
  {
    var audiences := BroadcastAudiences(member, members).value;
    AudiencesPartition(member, members);
    var expiresAt := db.logical[logical].expiresAt;
    var ids :| |ids| == |audiences| && FirstAudiences(db, member, logical, ids, audiences, expiresAt);
    AudienceTargets(db, member, logical, ids, audiences, expiresAt);
    CountedIds(db, member, logical, ids, audiences, expiresAt);
    hide LinkRows, Audience, BroadcastAudiences, Full, ReachedOnce, Sorted, Without, StrictlyIncreasing, DuplicateFree, Distinct;
    forall x | x in members && x != member ensures ReachedOnce(db, logical, x) {
      PieceReached(db, logical, ids, audiences, x);
    }
    forall id, x | id in LinkedTo(db, logical) && x in id.manifest.targets ensures x in members && x != member {
      var j :| 0 <= j < |ids| && ids[j] == id;
      PieceIn(audiences, x, j);
    }
  }

  lemma PieceReached(db: Db, logical: LogicalId, ids: seq<ObjectId>, audiences: seq<seq<MemberId>>, x: MemberId)
    requires |ids| == |audiences| && forall id :: id in LinkedTo(db, logical) <==> id in ids
    requires forall j :: 0 <= j < |ids| ==> ids[j].manifest.targets == audiences[j]
    requires StrictlyIncreasing(Flatten(audiences)) && x in Flatten(audiences)
    ensures ReachedOnce(db, logical, x)
  {
    hide LinkRows, StrictlyIncreasing;
    var i := PieceOf(audiences, x);
    forall other | other in LinkedTo(db, logical) && x in other.manifest.targets ensures other == ids[i] {
      var j :| 0 <= j < |ids| && ids[j] == other;
      OnePiece(audiences, x, i, j);
    }
    assert ids[i] in LinkedTo(db, logical) && x in ids[i].manifest.targets;
  }

  lemma {:induction false} PieceIn(pieces: seq<seq<MemberId>>, x: MemberId, j: nat)
    requires j < |pieces| && x in pieces[j]
    ensures x in Flatten(pieces)
  {
    if j > 0 { PieceIn(pieces[1..], x, j - 1); }
  }

  lemma {:induction false} PieceOf(pieces: seq<seq<MemberId>>, x: MemberId) returns (i: nat)
    requires x in Flatten(pieces)
    ensures i < |pieces| && x in pieces[i]
  {
    if x in pieces[0] {
      i := 0;
    } else {
      i := PieceOf(pieces[1..], x);
      i := i + 1;
    }
  }

  /** Pieces of a strictly increasing sequence share no element. */
  lemma {:induction false} OnePiece(pieces: seq<seq<MemberId>>, x: MemberId, i: nat, j: nat)
    requires StrictlyIncreasing(Flatten(pieces)) && i < |pieces| && j < |pieces| && x in pieces[i] && x in pieces[j]
    ensures i == j
  {
    var rest := Flatten(pieces[1..]);
    assert Flatten(pieces) == pieces[0] + rest;
    assert forall k :: 0 <= k < |rest| ==> rest[k] == Flatten(pieces)[|pieces[0]| + k];
    if i > 0 && j > 0 {
      OnePiece(pieces[1..], x, i - 1, j - 1);
    } else if i > 0 {
      PieceIn(pieces[1..], x, i - 1);
      SplitElement(pieces[0], rest, x);
    } else if j > 0 {
      PieceIn(pieces[1..], x, j - 1);
      SplitElement(pieces[0], rest, x);
    }
  }

  lemma SplitElement(a: seq<MemberId>, b: seq<MemberId>, x: MemberId)
    requires StrictlyIncreasing(a + b)
    ensures !(x in a && x in b)
  {
    assert forall j :: 0 <= j < |b| ==> b[j] == (a + b)[|a| + j];
    assert forall i :: 0 <= i < |a| ==> a[i] == (a + b)[i];
  }

  // A message whose roster grew: the second call is refused before any attempt and the first message stays.

  const OLD_MANIFEST: Manifest := Manifest(1, 1, "mesh.chat.text.v1", 1, [2], 1000, 16, 1, [Digest([0])])
  const OLD_MESSAGE: Db :=
    EMPTY.(nextSequence := 2,
           operations := map[9 := Operation(0, 1, Some(OLD_MANIFEST.Id()))],
           objects := map[OLD_MANIFEST.Id() := ObjectRow(OLD_MANIFEST, true)],
           chunks := map[(OLD_MANIFEST.Id(), 0) := [0]],
           outbox := {OLD_MANIFEST.Id()},
           announcements := map[OLD_MANIFEST.Id() := Announcement(0, OLD_MANIFEST, 0)],
           logical := map[7 := Logical(100, 1000, 1, 1)],
           links := map[OLD_MANIFEST.Id() := Link(7, 1)])

  /** Pruning with nothing expired, stale or unused changes nothing. */
  lemma PruneIdle(db: Db, now: nat)
    requires now <= MAX_LOGICAL_TIME && ExpiredObjects(db, now) == {} && StaleLogical(db, now) == {} && AllUsed(db)
    requires Unexpired(db.relayReceipts, now) == db.relayReceipts && Unexpired(db.relayAcks, now) == db.relayAcks
    ensures Prune(db, now) == Done(db, 0)
  {
    DeleteTwice(db, {}, {});
    UsedDrop(db);
    hide DeleteObjects, ExpiredObjects, StaleLogical, Unexpired, AllUsed, DropUnused;
    assert db.(logical := db.logical - {}) == db;
  }

  lemma OldMessageStays()
    ensures Prune(OLD_MESSAGE, 200) == Done(OLD_MESSAGE, 0)
  {
    assert ExpiredObjects(OLD_MESSAGE, 200) == {};
    assert HasLinks(OLD_MESSAGE, 7) by { assert OLD_MANIFEST.Id() in OLD_MESSAGE.links; }
    assert StaleLogical(OLD_MESSAGE, 200) == {};
    assert Unexpired(OLD_MESSAGE.relayReceipts, 200) == map[] && Unexpired(OLD_MESSAGE.relayAcks, 200) == map[];
    hide ExpiredObjects, StaleLogical, Unexpired, HasLinks, Prune;
    PruneIdle(OLD_MESSAGE, 200);
  }

  /** A stored message of another size is neither attempted nor taken as queued: the call is refused and the message stays. */
  lemma OtherSizeRefused(db: Db, member: MemberId, plaintext: Bytes, policy: Policy, logical: LogicalId, now: nat)
    requires logical in Pruned(db, now).logical && Pruned(db, now).logical[logical].targetCount != |policy.members| - 1
    ensures !Attempts(db, member, plaintext, Some(policy), logical, now)
    ensures !AlreadyQueued(db, member, plaintext, Some(policy), logical, now)
  {
    hide Prune, Pruned, BroadcastAudiences, LinkRows;
  }

  lemma OldMessageInv()
    ensures Inv(1, OLD_MESSAGE) && OwnBelow(1, OLD_MESSAGE)
  {
    OldMessageObjects();
    OldMessageLinks();
    OldMessageOutbox();
    OldMessageOperations();
    hide ObjectsOk, ChunksOk, CompleteOk, OperationsOk, OutboxOk, LinksOk;
  }

  lemma OldMessageOutbox()
    ensures OutboxOk(OLD_MESSAGE.operations, OLD_MESSAGE.targetReceipts, OLD_MESSAGE.outbox)
  {
    var id, db := OLD_MANIFEST.Id(), OLD_MESSAGE;
    assert db.operations[9].objectId == Some(id);
    assert 2 in id.manifest.targets && (id, 2) !in db.targetReceipts;
  }

  lemma OldMessageOperations()
    ensures OperationsOk(1, OLD_MESSAGE.nextSequence, OLD_MESSAGE.operations, OLD_MESSAGE.objects)
  {
  }

  lemma OldMessageObjects()
    ensures ObjectsOk(OLD_MESSAGE.objects) && ChunksOk(OLD_MESSAGE.objects, OLD_MESSAGE.chunks) && CompleteOk(OLD_MESSAGE.objects, OLD_MESSAGE.chunks)
  {
    assert OLD_MANIFEST.Valid() && OLD_MANIFEST.Fits(0, [0]);
  }

  lemma OldMessageLinks()
    ensures LinksOk(OLD_MESSAGE.operations, OLD_MESSAGE.logical, OLD_MESSAGE.links)
  {
    var id, db := OLD_MANIFEST.Id(), OLD_MESSAGE;
    assert db.operations[9].objectId == Some(id);
    assert LinkRows(db.links, 7) == map[][id := 1];
    TotalInsert(map[], id, 1);
  }

  const GROWN: Policy := Policy(Roster(Scope(0, 1), map[], 0, 0, 1000), [1, 2, 3])

  /** One message, sealed for a roster of two: a call for a roster of three is refused, and everything of the message is still there. */
  method RefusedCallKeepsMessage(store: Store, draws: nat -> Draw, lives: nat) returns (q: Queued)
    requires store.member == 1 && store.db == OLD_MESSAGE && lives > 0
    modifies store
    ensures q.Rejected? && store.db == OLD_MESSAGE && OLD_MANIFEST.Id() in store.db.outbox && Remains(store.db, 7)
  {
    OldMessageInv();
    OldMessageStays();
    hide Inv, OwnBelow, Prune, BroadcastAudiences, Attempts, AlreadyQueued, Takes, LinkRows;
    OtherSizeRefused(OLD_MESSAGE, 1, [65], GROWN, 7, 200);
    q := EnqueueText(store, [65], Some(GROWN), 7, draws, 200, lives);
  }
}
