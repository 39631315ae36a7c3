/** Draining an origin's outbox one slot at a time: which record each slot gives, and whether the slots reach every record. */
module Draining {
  import opened Types
  import opened Protocol
  import opened Tables
  import opened TablesInvariant
  import opened Objects
  import opened Sums
  import Chunking
  import Envelopes
  import RelayCaches

  const SLOTS: nat := 0x1_0000

  datatype Record = AnnouncementRecord(announcement: Announcement) | ChunkRecord(subject: ObjectId, index: nat, bytes: Bytes)

  datatype Routed = Routed(frame: RelayFrame, record: Record)

  datatype DrainError = InvalidArgument | StaleRequest | InternalInvariant

  // ----- the store's answers -----

  function StoredChunk(db: Db, id: ObjectId, index: nat): Result<Bytes, DurableError> {
    if id !in db.objects then Err(NotFound)
    else
      var m := db.objects[id].manifest;
      if index >= |m.hashes| then Err(InvalidInput)
      else if (id, index) !in db.chunks then Err(NotFound)
      else if m.VerifyChunk(index, db.chunks[(id, index)]).Err? then Err(m.VerifyChunk(index, db.chunks[(id, index)]).error)
      else Ok(db.chunks[(id, index)])
  }

  predicate LiveInOutbox(db: Db, now: nat, id: ObjectId) { id in db.outbox && id in db.objects && db.objects[id].manifest.expiresAt > now }

  /** Creation time of the message an object belongs to; zero when it belongs to none. */
  function Created(db: Db, id: ObjectId): nat {
    if id in db.links && db.links[id].logical in db.logical then db.logical[db.links[id].logical].createdAt else 0
  }

  /** The live outbox in the order the store gives it: newest message first, each object once. */
  ghost predicate Listing(db: Db, now: nat, ids: seq<ObjectId>) {
    && (forall id :: id in ids <==> LiveInOutbox(db, now, id))
    && (forall a, b | 0 <= a < b < |ids| :: ids[a] != ids[b] && Created(db, ids[a]) >= Created(db, ids[b]))
  }

  /** The new one goes before the first that is not newer. */
  function Inserted(db: Db, ids: seq<ObjectId>, id: ObjectId): seq<ObjectId> {
    if ids == [] || Created(db, id) >= Created(db, ids[0]) then [id] + ids else [ids[0]] + Inserted(db, ids[1..], id)
  }

  ghost predicate Ordered(db: Db, ids: seq<ObjectId>) {
    forall a, b | 0 <= a < b < |ids| :: ids[a] != ids[b] && Created(db, ids[a]) >= Created(db, ids[b])
  }

  lemma {:induction false} InsertedOrdered(db: Db, ids: seq<ObjectId>, id: ObjectId)
    requires Ordered(db, ids) && id !in ids
    ensures Ordered(db, Inserted(db, ids, id)) && forall x :: x in Inserted(db, ids, id) <==> x in ids || x == id
  {
    hide Created;
    if ids != [] && Created(db, id) < Created(db, ids[0]) {
      var rest := Inserted(db, ids[1..], id);
      InsertedOrdered(db, ids[1..], id);
      forall b | 0 <= b < |rest| ensures ids[0] != rest[b] && Created(db, ids[0]) >= Created(db, rest[b]) {
        assert rest[b] in rest;
        if rest[b] != id {
          var k :| 0 <= k < |ids[1..]| && ids[1..][k] == rest[b];
          assert ids[k + 1] == rest[b];
        }
      }
    } else if ids != [] {
      forall b | 0 <= b < |ids| ensures id != ids[b] && Created(db, id) >= Created(db, ids[b]) {
        assert ids[b] in ids;
      }
    }
  }

  lemma {:induction false} OrderedOf(db: Db, all: set<ObjectId>) returns (ids: seq<ObjectId>)
    ensures Ordered(db, ids) && forall id :: id in ids <==> id in all
    decreases |all|
  {
    hide Created, Inserted;
    ids := [];
    if all != {} {
      var id :| id in all;
      ids := OrderedOf(db, all - {id});
      InsertedOrdered(db, ids, id);
      ids := Inserted(db, ids, id);
    }
  }

  /** Every store has such a listing. */
  lemma ListingExists(db: Db, now: nat) returns (ids: seq<ObjectId>)
    ensures Listing(db, now, ids)
  {
    hide Created;
    ids := OrderedOf(db, set id | id in db.outbox && LiveInOutbox(db, now, id));
  }

  // ----- positions -----

  /** Position 0 of an object is its announcement, position i its chunk i - 1. */
  type Place = (ObjectId, nat)

  function PlacesOf(id: ObjectId): seq<Place> { seq(1 + |id.manifest.hashes|, i => (id, i)) }

  function Places(ids: seq<ObjectId>): seq<Place> {
    if ids == [] then [] else PlacesOf(ids[0]) + Places(ids[1..])
  }

  lemma {:induction false} PlacesMember(ids: seq<ObjectId>, p: Place)
    ensures p in Places(ids) <==> p.0 in ids && p.1 <= |p.0.manifest.hashes|
  {
    if ids != [] {
      PlacesMember(ids[1..], p);
      var own := PlacesOf(ids[0]);
      assert p in own <==> p.0 == ids[0] && p.1 <= |p.0.manifest.hashes| by {
        if p.0 == ids[0] && p.1 <= |p.0.manifest.hashes| { assert own[p.1] == p; }
      }
      assert p.0 in ids <==> p.0 == ids[0] || p.0 in ids[1..];
    }
  }

  /** No record has two positions. */
  lemma {:induction false} PlacesOnce(ids: seq<ObjectId>, s: nat, t: nat)
    requires forall a, b | 0 <= a < b < |ids| :: ids[a] != ids[b]
    requires s < t < |Places(ids)|
    ensures Places(ids)[s] != Places(ids)[t]
  {
    var own, rest := PlacesOf(ids[0]), Places(ids[1..]);
    if t >= |own| {
      if s >= |own| {
        PlacesOnce(ids[1..], s - |own|, t - |own|);
      } else {
        assert rest[t - |own|] in rest;
        PlacesMember(ids[1..], rest[t - |own|]);
      }
    }
  }

  /** A chunk comes right after the chunk before it, and chunk 0 right after the announcement. */
  lemma {:induction false} PlacesInOrder(ids: seq<ObjectId>, s: nat)
    requires s < |Places(ids)| && Places(ids)[s].1 > 0
    ensures s > 0 && Places(ids)[s - 1] == (Places(ids)[s].0, Places(ids)[s].1 - 1)
  {
    var own := PlacesOf(ids[0]);
    if s >= |own| { PlacesInOrder(ids[1..], s - |own|); }
  }

  // ----- one slot -----

  function Frame(member: MemberId, id: ObjectId, relayId: nat): RelayFrame {
    RelayCaches.RelayFrame(relayId, id.manifest.origin, member, 0, id.manifest.hopLimit, id.manifest.expiresAt)
  }

  /** What a slot gives: nothing past the last position, else the record there, and an error only for an announcement that no longer verifies. */
  function Answer(db: Db, member: MemberId, ids: seq<ObjectId>, slot: nat, relayId: ObjectId -> nat, roster: Roster, now: nat, oracle: Oracle)
    : Result<Option<Routed>, DrainError>
  {
    if slot >= |Places(ids)| then Ok(None)
    else
      var (id, i) := Places(ids)[slot];
      if i == 0 then
        var a := StoredAnnouncement(db, id, roster, now, oracle);
        if a.Err? then Err(InternalInvariant)
        else Ok(Some(Routed(Frame(member, id, relayId(id)), AnnouncementRecord(a.value.announcement))))
      else if (id, i - 1) !in db.chunks then Err(InternalInvariant)
      else Ok(Some(Routed(Frame(member, id, relayId(id)), ChunkRecord(id, i - 1, db.chunks[(id, i - 1)]))))
  }

  lemma Keyed(member: MemberId, db: Db, id: ObjectId)
    requires Inv(member, db) && id in db.objects
    ensures db.objects[id].manifest == id.manifest
  {
    assert db.objects[id].manifest.Id() == id;
  }

  /** Every chunk of an outbox object is there and genuine. */
  lemma ChunksNeverFail(member: MemberId, db: Db, now: nat, id: ObjectId, index: nat)
    requires Inv(member, db) && LiveInOutbox(db, now, id) && index < |id.manifest.hashes|
    ensures db.objects[id].manifest == id.manifest
    ensures (id, index) in db.chunks && StoredChunk(db, id, index) == Ok(db.chunks[(id, index)])
  {
    hide DeliveriesOk, ReceiptsOk, LinksOk, ModesOk, RelayOk, Manifest.Fits, Manifest.Valid, SameSlot;
    assert Committed(db.operations, id);
    assert db.objects[id].complete && db.objects[id].manifest.Id() == id;
    assert AllChunks(id, db.chunks);
  }

  method OutboxRecord(db: Db, member: MemberId, ids: seq<ObjectId>, slot: nat, relayId: ObjectId -> nat, roster: Option<Roster>, now: nat,
    oracle: Oracle)
    returns (r: Result<Option<Routed>, DrainError>)
    requires Inv(member, db) && slot < SLOTS && Listing(db, now, ids)
    ensures r ==
      if now == 0 then Err(InvalidArgument)
      else if roster.None? then Err(StaleRequest)
      else if now > MAX_LOGICAL_TIME then Err(InternalInvariant)
      else Answer(db, member, ids, slot, relayId, roster.value, now, oracle)
  {
    hide Inv, Created, StoredAnnouncement, Frame;
    if now == 0 { return Err(InvalidArgument); }
    if roster.None? { return Err(StaleRequest); }
    if now > MAX_LOGICAL_TIME { return Err(InternalInvariant); }
    var remaining: nat := slot;
    assert ids[0..] == ids;
    for k := 0 to |ids|
      invariant Answer(db, member, ids[k..], remaining, relayId, roster.value, now, oracle)
             == Answer(db, member, ids, slot, relayId, roster.value, now, oracle)
    {
      var id := ids[k];
      assert id in ids && ids[k..][0] == id && ids[k..][1..] == ids[k + 1..];
      Keyed(member, db, id);
      var manifest := db.objects[id].manifest;
      var count := 1 + |manifest.hashes|;
      SkipObject(ids[k..], remaining);
      if remaining >= count {
        remaining := remaining - count;
        continue;
      }
      var frame := Frame(member, id, relayId(id));
      if remaining == 0 {
        var a := StoredAnnouncement(db, id, roster.value, now, oracle);
        if a.Err? { return Err(InternalInvariant); }
        return Ok(Some(Routed(frame, AnnouncementRecord(a.value.announcement))));
      }
      var index := remaining - 1;
      ChunksNeverFail(member, db, now, id, index);
      var bytes := StoredChunk(db, id, index);
      if bytes.Err? { return Err(InternalInvariant); }
      return Ok(Some(Routed(frame, ChunkRecord(id, index, bytes.value))));
    }
    assert ids[|ids|..] == [];
    return Ok(None);
  }

  lemma SkipObject(ids: seq<ObjectId>, slot: nat)
    requires ids != []
    ensures
      var own := |PlacesOf(ids[0])|;
      if slot < own then slot < |Places(ids)| && Places(ids)[slot] == (ids[0], slot)
      else
        && (slot < |Places(ids)| <==> slot - own < |Places(ids[1..])|)
        && (slot < |Places(ids)| ==> Places(ids)[slot] == Places(ids[1..])[slot - own])
  {
  }

  // ----- the whole drain -----

  predicate Listed(ids: seq<ObjectId>, p: Place) { exists slot: nat :: slot < SLOTS && slot < |Places(ids)| && Places(ids)[slot] == p }

  /**
   * The drain is exact. Slot after slot gives, for every live outbox object and no other, its announcement and then its chunks
   * in index order, each at one slot; the first empty answer comes right after the last. A slot is an error just when it is an
   * announcement's and the stored announcement does not verify under the roster.
   */
  lemma DrainExact(member: MemberId, db: Db, ids: seq<ObjectId>, relayId: ObjectId -> nat, roster: Roster, now: nat, oracle: Oracle)
    requires Inv(member, db) && Listing(db, now, ids)
    ensures forall p: Place :: p in Places(ids) <==> LiveInOutbox(db, now, p.0) && p.1 <= |p.0.manifest.hashes|
    ensures forall s: nat, t: nat :: s < t < |Places(ids)| ==> Places(ids)[s] != Places(ids)[t]
    ensures forall s: nat :: s < |Places(ids)| && Places(ids)[s].1 > 0 ==> s > 0 && Places(ids)[s - 1] == (Places(ids)[s].0, Places(ids)[s].1 - 1)
    ensures forall s: nat ::
              var r := Answer(db, member, ids, s, relayId, roster, now, oracle);
              if s >= |Places(ids)| then r == Ok(None)
              else AnswersPlace(db, member, Places(ids)[s], relayId, roster, now, oracle, r)
  {
    hide Inv, LiveInOutbox, Created, StoredAnnouncement, PlacesOf, Frame, AnswersPlace;
    forall p: Place ensures p in Places(ids) <==> LiveInOutbox(db, now, p.0) && p.1 <= |p.0.manifest.hashes| { PlacesMember(ids, p); }
    forall s: nat, t: nat | s < t < |Places(ids)| ensures Places(ids)[s] != Places(ids)[t] { PlacesOnce(ids, s, t); }
    forall s: nat | s < |Places(ids)| && Places(ids)[s].1 > 0
      ensures s > 0 && Places(ids)[s - 1] == (Places(ids)[s].0, Places(ids)[s].1 - 1)
    {
      PlacesInOrder(ids, s);
    }
    forall s: nat
      ensures
        var r := Answer(db, member, ids, s, relayId, roster, now, oracle);
        if s >= |Places(ids)| then r == Ok(None)
        else AnswersPlace(db, member, Places(ids)[s], relayId, roster, now, oracle, r)
    {
      if s < |Places(ids)| { PlaceAnswers(member, db, ids, s, relayId, roster, now, oracle); }
    }
  }

  /** What the slot of a position answers. */
  predicate AnswersPlace(db: Db, member: MemberId, p: Place, relayId: ObjectId -> nat, roster: Roster, now: nat, oracle: Oracle,
    r: Result<Option<Routed>, DrainError>)
  {
    if p.1 == 0 && StoredAnnouncement(db, p.0, roster, now, oracle).Err? then r == Err(InternalInvariant)
    else r.Ok? && r.value.Some? && IsRecordAt(db, member, p, relayId, r.value.value)
  }

  /** A record is the stored announcement or the stored chunk of its position, under the object's own frame. */
  predicate IsRecordAt(db: Db, member: MemberId, p: Place, relayId: ObjectId -> nat, r: Routed) {
    && r.frame == Frame(member, p.0, relayId(p.0))
    && if p.1 == 0 then p.0 in db.announcements && r.record == AnnouncementRecord(db.announcements[p.0])
       else (p.0, p.1 - 1) in db.chunks && r.record == ChunkRecord(p.0, p.1 - 1, db.chunks[(p.0, p.1 - 1)])
  }

  lemma StoredIsKept(db: Db, id: ObjectId, roster: Roster, now: nat, oracle: Oracle)
    requires StoredAnnouncement(db, id, roster, now, oracle).Ok?
    ensures id in db.announcements && StoredAnnouncement(db, id, roster, now, oracle).value.announcement == db.announcements[id]
  {
    hide Roster.ValidateAt, Manifest.Valid;
  }

  lemma PlaceAnswers(member: MemberId, db: Db, ids: seq<ObjectId>, s: nat, relayId: ObjectId -> nat, roster: Roster, now: nat, oracle: Oracle)
    requires Inv(member, db) && Listing(db, now, ids) && s < |Places(ids)|
    ensures AnswersPlace(db, member, Places(ids)[s], relayId, roster, now, oracle, Answer(db, member, ids, s, relayId, roster, now, oracle))
  {
    hide Inv, Created, Places, PlacesOf, StoredAnnouncement, Frame;
    var p := Places(ids)[s];
    assert p in Places(ids);
    PlacesMember(ids, p);
    if p.1 > 0 {
      ChunksNeverFail(member, db, now, p.0, p.1 - 1);
    } else if StoredAnnouncement(db, p.0, roster, now, oracle).Ok? {
      StoredIsKept(db, p.0, roster, now, oracle);
    }
  }

  /** Sixteen-bit slots reach every record just when there are no more records than slots. */
  lemma SlotsReachAll(db: Db, now: nat, ids: seq<ObjectId>)
    requires Listing(db, now, ids)
    ensures (forall p <- Places(ids) :: Listed(ids, p)) <==> |Places(ids)| <= SLOTS
  {
    hide Created, LiveInOutbox, Places;
    if |Places(ids)| > SLOTS {
      var p := Places(ids)[SLOTS];
      assert p in Places(ids);
      if slot: nat :| slot < SLOTS && Places(ids)[slot] == p { PlacesOnce(ids, slot, SLOTS); }
      assert !Listed(ids, p);
    }
  }

  // ----- the store's own limits do not rule the overflow out -----

  const MANY: nat := 3856
  const ORIGIN: MemberId := 7
  const TARGET: MemberId := 9
  const DRAIN_TIME: nat := 500
  const DEFAULT_LIMITS: Limits := Limits(4096, 64 * 1024 * 1024, 8192)
  const POLICY: ObjectPolicy := ObjectPolicy("mesh.chat.text.v1", 1, [TARGET], 1000, 16)

  function Nth(e: Bytes, i: nat): ObjectId { ManifestOf(ORIGIN, i + 1, POLICY, e).Id() }

  function AllIds(e: Bytes, n: nat): seq<ObjectId> { seq(n, i requires 0 <= i => Nth(e, i)) }

  function IdSet(e: Bytes, n: nat): set<ObjectId> { set i | 0 <= i < n :: Nth(e, i) }

  function ChunkKeys(e: Bytes, n: nat): set<(ObjectId, nat)> {
    set i, c | 0 <= i < n && 0 <= c < |Chunking.Chunks(e, CHUNK_BYTES)| :: (Nth(e, i), c)
  }

  function AllChunkRows(e: Bytes, n: nat): map<(ObjectId, nat), Bytes> {
    map k: (ObjectId, nat) | k in ChunkKeys(e, n) && k.1 < |Chunking.Chunks(e, CHUNK_BYTES)| :: Chunking.Chunks(e, CHUNK_BYTES)[k.1]
  }

  function AllOperations(e: Bytes, n: nat): map<OperationId, Operation> { map i: nat | i < n :: Operation(0, i + 1, Some(Nth(e, i))) }

  /** The store after committing n objects with this envelope. */
  function FullStore(e: Bytes, n: nat): Db {
    EMPTY.(nextSequence := n + 1,
           operations := AllOperations(e, n),
           objects := map id | id in IdSet(e, n) :: ObjectRow(id.manifest, true),
           chunks := AllChunkRows(e, n),
           outbox := IdSet(e, n),
           announcements := map id | id in IdSet(e, n) :: Announcement(0, id.manifest, 0))
  }

  predicate Fillable(e: Bytes, n: nat) { 0 < |e| <= MAX_OBJECT_BYTES && n <= MANY }

  lemma NthObject(e: Bytes, i: nat)
    requires 0 < |e| <= MAX_OBJECT_BYTES && i < MANY
    ensures
      var p := FromOpaque(ORIGIN, i + 1, POLICY, e);
      && p.Ok? && p.value.Valid() && p.value.manifest == Nth(e, i).manifest && p.value.chunks == Chunking.Chunks(e, CHUNK_BYTES)
      && Nth(e, i).manifest.targets == [TARGET] && Nth(e, i).manifest.contentLen == |e| && Nth(e, i).manifest.expiresAt == 1000
      && Nth(e, i).manifest.sequence == i + 1 && Nth(e, i).manifest.origin == ORIGIN
      && |Nth(e, i).manifest.hashes| == |Chunking.Chunks(e, CHUNK_BYTES)|
  {
    FromOpaqueExact(ORIGIN, i + 1, POLICY, e);
  }

  lemma FullObjects(e: Bytes, n: nat)
    requires Fillable(e, n)
    ensures ObjectsOk(FullStore(e, n).objects)
  {
    hide ManifestOf, FromOpaque, AllChunkRows, AllOperations;
    var db := FullStore(e, n);
    forall id | id in db.objects ensures id.manifest.Valid() {
      var i :| 0 <= i < n && id == Nth(e, i);
      NthObject(e, i);
    }
    forall a, b | a in db.objects && b in db.objects && SameSlot(a.manifest, b.manifest) ensures a == b {
      var i :| 0 <= i < n && a == Nth(e, i);
      var j :| 0 <= j < n && b == Nth(e, j);
      NthObject(e, i);
      NthObject(e, j);
    }
  }

  lemma FullChunks(e: Bytes, n: nat)
    requires Fillable(e, n)
    ensures var db := FullStore(e, n); ChunksOk(db.objects, db.chunks) && CompleteOk(db.objects, db.chunks)
  {
    hide ManifestOf, FromOpaque, AllOperations, Manifest.Fits;
    var db := FullStore(e, n);
    forall k | k in db.chunks ensures k.0 in db.objects && k.0.manifest.Fits(k.1, db.chunks[k]) {
      var i, c :| 0 <= i < n && 0 <= c < |Chunking.Chunks(e, CHUNK_BYTES)| && k == (Nth(e, i), c);
      NthObject(e, i);
    }
    forall id | id in db.objects ensures AllChunks(id, db.chunks) {
      var i :| 0 <= i < n && id == Nth(e, i);
      NthObject(e, i);
      assert forall c :: 0 <= c < |id.manifest.hashes| ==> (id, c) in ChunkKeys(e, n);
    }
  }

  lemma FullClaims(e: Bytes, n: nat)
    requires Fillable(e, n)
    ensures var db := FullStore(e, n); OperationsOk(ORIGIN, db.nextSequence, db.operations, db.objects)
  {
    hide FromOpaque, ManifestOf, AllChunkRows;
    var db := FullStore(e, n);
    forall i: nat | i < n ensures Claims(ORIGIN, db.objects, db.operations[i], Nth(e, i)) { NthObject(e, i); }
  }

  lemma FullOutbox(e: Bytes, n: nat)
    requires Fillable(e, n)
    ensures var db := FullStore(e, n); OutboxOk(db.operations, db.targetReceipts, db.outbox)
  {
    hide FromOpaque, ManifestOf, AllChunkRows;
    var db := FullStore(e, n);
    forall id ensures id in db.outbox <==> Committed(db.operations, id) && !AllConfirmed(id, db.targetReceipts) {
      if id in db.outbox {
        var i :| 0 <= i < n && id == Nth(e, i);
        NthObject(e, i);
        assert db.operations[i].objectId == Some(id);
        assert TARGET in id.manifest.targets && (id, TARGET) !in db.targetReceipts;
      }
      if Committed(db.operations, id) {
        var i :| i in db.operations && db.operations[i].objectId == Some(id);
        assert id == Nth(e, i);
      }
    }
  }

  /** The tables that hold nothing. */
  lemma FullRest(e: Bytes, n: nat)
    ensures
      var db := FullStore(e, n);
      && ModesOk(db.objects, db.announcements)
      && RelayOk(ORIGIN, db.objects, db.announcements, db.relayOutbox, db.relayMetadata)
      && DeliveriesOk(ORIGIN, db.objects, db.announcements, db.localDeliveries, db.deliveries, db.acknowledged)
      && ReceiptsOk(db.announcements, db.operations, db.targetReceipts, db.originAcks)
      && LinksOk(db.operations, db.logical, db.links)
  {
    hide IdSet, AllChunkRows, AllOperations, Committed;
  }

  lemma FullInv(e: Bytes, n: nat)
    requires Fillable(e, n)
    ensures Inv(ORIGIN, FullStore(e, n))
  {
    FullObjects(e, n);
    FullChunks(e, n);
    FullClaims(e, n);
    FullOutbox(e, n);
    FullRest(e, n);
    hide ObjectsOk, ChunksOk, CompleteOk, ModesOk, RelayOk, DeliveriesOk, OperationsOk, ReceiptsOk, OutboxOk, LinksOk, FullStore;
  }

  lemma FullListing(e: Bytes, n: nat)
    requires Fillable(e, n)
    ensures Listing(FullStore(e, n), DRAIN_TIME, AllIds(e, n))
  {
    hide FromOpaque, ManifestOf, AllChunkRows, AllOperations;
    var db, ids := FullStore(e, n), AllIds(e, n);
    forall i: nat | i < n ensures LiveInOutbox(db, DRAIN_TIME, Nth(e, i)) { NthObject(e, i); }
    forall id ensures id in ids <==> LiveInOutbox(db, DRAIN_TIME, id) {
      if id in ids {
        var i :| 0 <= i < n && ids[i] == id;
        assert id == Nth(e, i);
      }
      if LiveInOutbox(db, DRAIN_TIME, id) {
        var i :| 0 <= i < n && id == Nth(e, i);
        assert ids[i] == id;
      }
    }
    forall a, b | 0 <= a < b < n ensures ids[a] != ids[b] {
      NthObject(e, a);
      NthObject(e, b);
    }
  }

  lemma {:induction false} BoundedRows<K>(rows: map<K, nat>)
    requires forall k <- rows :: rows[k] <= 17_100
    ensures Total(rows) <= 17_100 * |rows|
    decreases |rows|
  {
    if rows == map[] {
      assert |rows| == 0;
    } else {
      var k :| k in rows;
      TotalSplit(rows, k);
      BoundedRows(rows - {k});
      assert (rows - {k}).Keys == rows.Keys - {k};
    }
  }

  lemma {:induction false} IdSetCount(e: Bytes, n: nat)
    requires 0 < |e| <= MAX_OBJECT_BYTES && n <= MANY
    ensures |IdSet(e, n)| == n
  {
    hide ManifestOf, FromOpaque;
    if n == 0 {
      assert IdSet(e, 0) == {};
    } else {
      IdSetCount(e, n - 1);
      assert IdSet(e, n) == IdSet(e, n - 1) + {Nth(e, n - 1)};
      NthObject(e, n - 1);
      if Nth(e, n - 1) in IdSet(e, n - 1) {
        var i :| 0 <= i < n - 1 && Nth(e, i) == Nth(e, n - 1);
        NthObject(e, i);
      }
    }
  }

  lemma {:induction false} OperationCount(e: Bytes, n: nat)
    ensures |AllOperations(e, n)| == n
  {
    if n == 0 {
      assert AllOperations(e, 0) == map[];
    } else {
      OperationCount(e, n - 1);
      assert AllOperations(e, n) == AllOperations(e, n - 1)[n - 1 := Operation(0, n, Some(Nth(e, n - 1)))];
    }
  }

  lemma {:induction false} ManyPlaces(ids: seq<ObjectId>)
    requires forall id <- ids :: |id.manifest.hashes| >= 16
    ensures |Places(ids)| >= 17 * |ids|
  {
    if ids != [] {
      assert ids[0] in ids && forall id <- ids[1..] :: id in ids;
      ManyPlaces(ids[1..]);
    }
  }

  /**
   * A store within the default limits that the drain cannot list: 3856 objects, each the sealing of a 15 KiB message, are 17 records
   * or more each, and there is a record that no 16-bit slot gives.
   */
  lemma StoreOutgrowsSlots() returns (e: Bytes, lost: Place)
    ensures
      var db := FullStore(e, MANY);
      && Envelopes.IsSealed(e) && Inv(ORIGIN, db) && Listing(db, DRAIN_TIME, AllIds(e, MANY))
      && (forall id <- db.outbox :: exists sequence ::
            var p := FromOpaque(ORIGIN, sequence, POLICY, e); p.Ok? && p.value.manifest == id.manifest)
      && |db.objects| <= DEFAULT_LIMITS.objects && Total(ReservedBytes(db)) <= DEFAULT_LIMITS.bytes && |db.operations| <= DEFAULT_LIMITS.operations
      && lost in Places(AllIds(e, MANY)) && !Listed(AllIds(e, MANY), lost)
  {
    e := Envelopes.SealedExample();
    hide Envelopes.IsSealed;
    FullInv(e, MANY);
    FullListing(e, MANY);
    FullWithin(e);
    FromSealed(e);
    TooManyPlaces(e);
    var ids := AllIds(e, MANY);
    SlotsReachAll(FullStore(e, MANY), DRAIN_TIME, ids);
    hide Inv, Listing, Places, FullStore, AllIds, Listed, FromOpaque;
    lost :| lost in Places(ids) && !Listed(ids, lost);
  }

  lemma FullWithin(e: Bytes)
    requires 0 < |e| <= 17_100
    ensures
      var db := FullStore(e, MANY);
      |db.objects| <= DEFAULT_LIMITS.objects && Total(ReservedBytes(db)) <= DEFAULT_LIMITS.bytes && |db.operations| <= DEFAULT_LIMITS.operations
  {
    IdSetCount(e, MANY);
    OperationCount(e, MANY);
    var db := FullStore(e, MANY);
    assert db.objects.Keys == IdSet(e, MANY);
    var rows := ReservedBytes(db);
    forall id | id in rows ensures rows[id] == |e| {
      var i :| 0 <= i < MANY && id == Nth(e, i);
    }
    assert rows.Keys == IdSet(e, MANY);
    BoundedRows(rows);
  }

  lemma FromSealed(e: Bytes)
    requires 0 < |e| <= MAX_OBJECT_BYTES
    ensures forall id <- FullStore(e, MANY).outbox :: exists sequence ::
              var p := FromOpaque(ORIGIN, sequence, POLICY, e); p.Ok? && p.value.manifest == id.manifest
  {
    hide FromOpaque, ManifestOf;
    forall id | id in FullStore(e, MANY).outbox
      ensures exists sequence :: var p := FromOpaque(ORIGIN, sequence, POLICY, e); p.Ok? && p.value.manifest == id.manifest
    {
      var i :| 0 <= i < MANY && id == Nth(e, i);
      NthObject(e, i);
      var p := FromOpaque(ORIGIN, i + 1, POLICY, e);
      assert p.Ok? && p.value.manifest == id.manifest;
    }
  }

  lemma TooManyPlaces(e: Bytes)
    requires 15 * CHUNK_BYTES < |e| <= MAX_OBJECT_BYTES
    ensures |Places(AllIds(e, MANY))| > SLOTS
  {
    Chunking.ChunkCount(e, CHUNK_BYTES);
    forall id | id in AllIds(e, MANY) ensures |id.manifest.hashes| >= 16 {
      var i :| 0 <= i < MANY && AllIds(e, MANY)[i] == id;
      NthObject(e, i);
    }
    ManyPlaces(AllIds(e, MANY));
  }
}
