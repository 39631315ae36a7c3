/**
 * One run of a network of two stores in which a rolled back object has left its device: the process dies between the audiences
 * of a message, the first audience is drained and accepted by another member, and the retry rolls the message back.
 */
module CrashRuns {
  import opened Types
  import opened Sums
  import opened Protocol
  import opened Tables
  import opened StoreRuns
  import opened Network
  import opened NetworkSafety
  import RelayCaches

  const MESSAGE: LogicalId := 7
  const NOW: nat := 100
  const EXPIRY: nat := 1000
  const LIMITS: Limits := Limits(4096, 64 * 1024 * 1024, 8192)

  const FIRST: Manifest :=
    Manifest.Manifest(1, 1, "mesh.chat.text.v1", 1, [2, 3, 4, 5, 6, 7, 8, 9, 10, 11], EXPIRY, 16, 1, [Digest([0])])
  const ID: ObjectId := FIRST.Id()
  const ANNOUNCED: Announcement := Announcement(0, FIRST, 0)

  function Certs(): map<MemberId, Cert> { map m: MemberId | 1 <= m <= 12 :: Cert(m, 0, 2000) }
  function Group(): Roster { Roster(Scope(0, 1), Certs(), 0, 0, 2000) }

  // ----- the origin's store, transaction by transaction -----

  function Begun(): Db {
    EMPTY.(logical := map[MESSAGE := Logical(NOW, EXPIRY, 11, 2)])
  }

  function Reserved(): Db {
    Begun().(nextSequence := 2, operations := map[9 := Operation(0, 1, None)])
  }

  function Queued(): Db {
    Reserved().(operations := map[9 := Operation(0, 1, Some(ID))],
              objects := map[ID := ObjectRow(FIRST, true)],
              chunks := ChunkRows(ID, [[0]]),
              outbox := {ID},
              announcements := map[ID := ANNOUNCED],
              links := map[ID := Link(MESSAGE, 10)])
  }

  function Held(): Db {
    EMPTY.(objects := map[ID := ObjectRow(FIRST, false)], announcements := map[ID := ANNOUNCED])
  }

  const NO_SIGNATURES: Oracle := Oracle({}, {}, {})
  const ONE_SIGNATURE: Oracle := Oracle({ANNOUNCED}, {}, {})

  function Prepared(): PreparedObject { PreparedObject(FIRST, [[0]]) }

  const FRAME: RelayFrame := RelayCaches.RelayFrame(5, 1, 1, 0, 16, EXPIRY)

  function EmptyNet(): Net {
    Net(map[1 := EMPTY, 2 := EMPTY], NO_SIGNATURES)
  }

  function BegunNet(): Net {
    Net(map[1 := Begun(), 2 := EMPTY], NO_SIGNATURES)
  }

  function ReservedNet(): Net {
    Net(map[1 := Reserved(), 2 := EMPTY], NO_SIGNATURES)
  }

  function QueuedNet(): Net {
    Net(map[1 := Queued(), 2 := EMPTY], ONE_SIGNATURE)
  }

  function HeldNet(): Net {
    Net(map[1 := Queued(), 2 := Held()], ONE_SIGNATURE)
  }

  function RolledBackNet(): Net { Net(map[1 := Rollback(Queued(), MESSAGE), 2 := Held()], ONE_SIGNATURE) }

  ghost function TheRun(): seq<Net> { [EmptyNet(), BegunNet(), ReservedNet(), QueuedNet(), HeldNet(), RolledBackNet()] }

  lemma FirstValid()
    ensures FIRST.Valid() && Prepared().Valid()
  {
    assert FIRST.Fits(0, [0]);
  }

  lemma Commits()
    ensures CommitOutgoing(Reserved(), 1, LIMITS, 9, 0, Prepared(), NOW, Some(ANNOUNCED), Some(MESSAGE)) == Done(Queued(), ID)
  {
    CommitsNew();
    hide CommitNew, ChunkRows;
  }

  lemma CommitsNew()
    ensures CommitNew(Reserved(), 1, LIMITS, 9, Prepared(), NOW, Some(ANNOUNCED), Some(MESSAGE)) == Done(Queued(), ID)
  {
    Inserts(Reserved());
    Links(Reserved());
    NoClash(Reserved());
    hide InsertManifest, LinkLogical, ChunksClash, Claimed, ChunkRows, InsertOrIgnore;
    NewAnnouncement();
    assert map[ID := ObjectRow(FIRST, false)][ID := ObjectRow(FIRST, true)] == map[ID := ObjectRow(FIRST, true)];
    assert map[9 := Operation(0, 1, None)][9 := Operation(0, 1, Some(ID))] == map[9 := Operation(0, 1, Some(ID))];
  }

  lemma NewAnnouncement()
    ensures RecordAnnouncement(Reserved(), ID, Some(ANNOUNCED)) == map[ID := ANNOUNCED]
  {
  }

  lemma NoClash(db: Db)
    requires db == Reserved()
    ensures !ChunksClash(db.chunks, ID, [[0]]) && !Claimed(db.operations, 9, ID) && db.chunks + ChunkRows(ID, [[0]]) == ChunkRows(ID, [[0]])
  {
  }

  lemma Inserts(db: Db)
    requires db.objects == map[]
    ensures InsertManifest(db, LIMITS, FIRST) == Ok(map[ID := ObjectRow(FIRST, false)])
  {
    assert ReservedBytes(db) == map[] && Total(ReservedBytes(db)) == 0;
    hide Total, ReservedBytes;
  }

  lemma Links(db: Db)
    requires db.links == map[] && db.logical == Begun().logical
    ensures LinkLogical(db, MESSAGE, ID, 10) == Ok(map[ID := Link(MESSAGE, 10)])
  {
    NothingLinked(db);
    hide LinkRows, Total;
  }

  lemma NothingLinked(db: Db)
    requires db.links == map[]
    ensures LinkedTo(db, MESSAGE) == map[] && Total(LinkedTo(db, MESSAGE)) == 0
  {
    assert LinkedTo(db, MESSAGE) == map[];
  }

  lemma OneLinked()
    ensures Incomplete(Queued(), MESSAGE) && LinkedTo(Queued(), MESSAGE) == map[ID := 10]
  {
    assert LinkedTo(Queued(), MESSAGE) == map[ID := 10];
  }

  lemma Announces()
    ensures
      var a := AuthenticateAnnouncement(ANNOUNCED, Group(), NOW, ONE_SIGNATURE);
      a.Ok? && AnnounceAuthenticated(EMPTY, LIMITS, a.value, Group(), NOW) == Done(Held(), ID)
  {
    FirstValid();
    Inserts(EMPTY);
    hide InsertManifest, Manifest.Valid;
  }

  // ----- the steps -----

  lemma HostStep(net: Net, who: MemberId, op: Op)
    requires who in net.stores && HostOp(net.stores[who], op)
    ensures Step(LIMITS, net, who, Host(op)) == Net(net.stores[who := Apply(who, LIMITS, net.stores[who], op)], net.oracle)
  {
    RunOne(who, LIMITS, net.stores[who], op);
    hide Run, Apply, HostOp;
  }

  lemma BeginStep()
    ensures Step(LIMITS, EmptyNet(), 1, Host(BeginOp(MESSAGE, 11, 2, EXPIRY, NOW))) == BegunNet()
    ensures Next(LIMITS, EmptyNet(), BegunNet())
  {
    HostStep(EmptyNet(), 1, BeginOp(MESSAGE, 11, 2, EXPIRY, NOW));
    hide Step;
    assert EmptyNet().stores[1 := Begun()] == BegunNet().stores;
    StepIsNext(EmptyNet(), BegunNet(), 1, Host(BeginOp(MESSAGE, 11, 2, EXPIRY, NOW)));
  }

  lemma ReserveStep()
    ensures Step(LIMITS, BegunNet(), 1, Host(ReserveOp(9, 0))) == ReservedNet()
    ensures Next(LIMITS, BegunNet(), ReservedNet())
  {
    HostStep(BegunNet(), 1, ReserveOp(9, 0));
    hide Step;
    assert BegunNet().stores[1 := Reserved()] == ReservedNet().stores;
    StepIsNext(BegunNet(), ReservedNet(), 1, Host(ReserveOp(9, 0)));
  }

  const SEAL: Action := Seal(9, 0, Prepared(), Group(), Some(MESSAGE), 0, NOW)

  lemma SealStep()
    ensures Step(LIMITS, ReservedNet(), 1, SEAL) == QueuedNet()
    ensures Next(LIMITS, ReservedNet(), QueuedNet())
  {
    FirstValid();
    Commits();
    hide CommitOutgoing, PreparedObject.Valid, Run, ChunkRows, Certs, Manifest.Valid;
    var op := CommitOp(9, 0, Prepared(), NOW, Some(ANNOUNCED), Some(MESSAGE));
    RunOne(1, LIMITS, Reserved(), op);
    assert ReservedNet().stores[1 := Queued()] == QueuedNet().stores;
    assert NO_SIGNATURES.announcements + {ANNOUNCED} == {ANNOUNCED};
    assert Apply(1, LIMITS, Reserved(), op) == Queued();
    hide Apply;
    hide Step;
    StepIsNext(ReservedNet(), QueuedNet(), 1, SEAL);
  }

  const ACCEPT: Action := Accept(FRAME, AnnouncementRecord(ANNOUNCED), 1, Err(Corrupt), Group(), false, NOW)

  lemma AcceptStep()
    ensures Step(LIMITS, QueuedNet(), 2, ACCEPT) == HeldNet()
    ensures Next(LIMITS, QueuedNet(), HeldNet())
  {
    Announces();
    hide AuthenticateAnnouncement, AnnounceAuthenticated, Group, ChunkRows, Run;
    var a := AuthenticateAnnouncement(ANNOUNCED, Group(), NOW, ONE_SIGNATURE).value;
    RunOne(2, LIMITS, EMPTY, AnnounceAuthenticatedOp(a, Group(), NOW));
    assert Apply(2, LIMITS, EMPTY, AnnounceAuthenticatedOp(a, Group(), NOW)) == Held();
    hide Apply;
    assert QueuedNet().stores[2 := Held()] == HeldNet().stores;
    hide Step;
    StepIsNext(QueuedNet(), HeldNet(), 2, ACCEPT);
  }

  lemma RollbackStep()
    ensures Step(LIMITS, HeldNet(), 1, Host(RollbackOp(MESSAGE))) == RolledBackNet()
    ensures Next(LIMITS, HeldNet(), RolledBackNet())
  {
    OneLinked();
    hide Rollback, Incomplete, Step, Queued, Held;
    RollbackOf(Queued(), Held(), ONE_SIGNATURE);
    StepIsNext(HeldNet(), RolledBackNet(), 1, Host(RollbackOp(MESSAGE)));
  }

  lemma RollbackOf(db: Db, other: Db, oracle: Oracle)
    requires Incomplete(db, MESSAGE)
    ensures Step(LIMITS, Net(map[1 := db, 2 := other], oracle), 1, Host(RollbackOp(MESSAGE)))
         == Net(map[1 := Rollback(db, MESSAGE), 2 := other], oracle)
  {
    hide Rollback, Incomplete, Step, Apply, HostOp;
    var net, op := Net(map[1 := db, 2 := other], oracle), RollbackOp(MESSAGE);
    RollbackAllowed(db);
    HostStep(net, 1, op);
    RollbackApplies(db);
    Replaced(db, other, Rollback(db, MESSAGE));
  }

  lemma Replaced<T>(one: T, two: T, new1: T)
    ensures map[1 := one, 2 := two][1 := new1] == map[1 := new1, 2 := two]
  {
  }

  lemma RollbackAllowed(db: Db)
    requires Incomplete(db, MESSAGE)
    ensures HostOp(db, RollbackOp(MESSAGE))
  {
    hide Incomplete;
  }

  lemma RollbackApplies(db: Db)
    ensures Apply(1, LIMITS, db, RollbackOp(MESSAGE)) == Rollback(db, MESSAGE)
  {
    hide Rollback;
  }

  lemma Unqueued()
    ensures ID !in Rollback(Queued(), MESSAGE).outbox && Rollback(Queued(), MESSAGE).localDeliveries == map[]
  {
    OneLinked();
    hide OfOthers, OthersReservations, UsedReservations, LinkRows, ChunkRows;
  }

  lemma StepIsNext(net: Net, net': Net, who: MemberId, action: Action)
    requires who in net.stores && Step(LIMITS, net, who, action) == net'
    ensures Next(LIMITS, net, net')
  {
  }

  /**
   * This is a run: the object is unexpired in its origin's outbox while another member holds it and no target has committed it,
   * and then it is gone from the outbox.
   */
  lemma RolledBackAfterLeaving()
    ensures IsRun(LIMITS, TheRun())
    ensures ID in HeldNet().stores[1].outbox && ID in HeldNet().stores[2].objects && NOW < ID.manifest.expiresAt
    ensures ID !in RolledBackNet().stores[1].outbox
    ensures forall i, r: Receipt :: 0 <= i < 6 ==> !CommittedBy(TheRun()[i], r)
  {
    RunOfFive();
    Unqueued();
    hide IsRun, Rollback, ChunkRows;
    NoneCommitted();
    hide CommittedBy;
  }

  lemma NoneCommitted()
    ensures forall i, r: Receipt :: 0 <= i < 6 ==> !CommittedBy(TheRun()[i], r)
  {
    NoneDelivered();
    hide CommittedBy, EmptyNet, BegunNet, ReservedNet, QueuedNet, HeldNet, RolledBackNet, NoDelivery;
    forall i, r: Receipt | 0 <= i < 6 ensures !CommittedBy(TheRun()[i], r) { Undelivered(TheRun()[i], r); }
  }

  predicate NoDelivery(net: Net) { forall m :: m in net.stores ==> net.stores[m].localDeliveries == map[] }

  lemma Undelivered(net: Net, r: Receipt)
    requires NoDelivery(net)
    ensures !CommittedBy(net, r)
  {
  }

  lemma NoneDelivered()
    ensures NoDelivery(EmptyNet()) && NoDelivery(BegunNet()) && NoDelivery(ReservedNet()) && NoDelivery(QueuedNet())
    ensures NoDelivery(HeldNet()) && NoDelivery(RolledBackNet())
  {
    Unqueued();
    hide Rollback, ChunkRows, NoDelivery;
    TwoStores(EMPTY, EMPTY, NO_SIGNATURES);
    TwoStores(Begun(), EMPTY, NO_SIGNATURES);
    TwoStores(Reserved(), EMPTY, NO_SIGNATURES);
    TwoStores(Queued(), EMPTY, ONE_SIGNATURE);
    TwoStores(Queued(), Held(), ONE_SIGNATURE);
    TwoStores(Rollback(Queued(), MESSAGE), Held(), ONE_SIGNATURE);
  }

  lemma TwoStores(one: Db, two: Db, oracle: Oracle)
    requires one.localDeliveries == map[] && two.localDeliveries == map[]
    ensures NoDelivery(Net(map[1 := one, 2 := two], oracle))
  {
  }

  lemma RunOfFive()
    ensures IsRun(LIMITS, TheRun())
  {
    BeginStep();
    ReserveStep();
    SealStep();
    AcceptStep();
    RollbackStep();
    hide EmptyNet, BegunNet, ReservedNet, QueuedNet, HeldNet, RolledBackNet, Step, Initial;
    assert Initial(EmptyNet()) by { StartsEmpty(); }
    hide Next;
  }

  lemma StartsEmpty()
    ensures Initial(EmptyNet())
  {
  }
}
