/** The one policy a store pins, and everything that may ever replace it. */
module PolicyHistory {
  import opened Types
  import opened Rosters
  import opened Policies

  datatype Snapshot = Snapshot(authority: nat, scope: Scope, digest: RosterDigest)

  /** The policy tables: the pinned state, its certificates in order and its revocations by serial. */
  datatype Row = Row(snapshot: Snapshot, certificates: seq<Certificate>, revoked: seq<nat>)

  /** An endorsement of a successor; `signer` made its signature. */
  datatype Handoff = Handoff(priorAuthority: nat, priorScope: Scope, priorDigest: RosterDigest, nextAuthority: nat, nextEpoch: nat,
    validUntil: nat, signer: nat)

  predicate HandoffHolds(h: Handoff, current: Snapshot, now: nat) {
    && now < h.validUntil && h.priorAuthority == current.authority && h.priorScope == current.scope && h.priorDigest == current.digest
    && 0 < h.priorScope.epoch <= MAX_LOGICAL_TIME && h.nextEpoch == h.priorScope.epoch + 1
    && h.validUntil <= MAX_LOGICAL_TIME && h.nextAuthority != h.priorAuthority && h.signer == current.authority
  }

  function VerifyFor(h: Handoff, current: Snapshot, now: nat): Result<(), DurableError> {
    if now > MAX_LOGICAL_TIME then Err(InvalidInput)
    else if || now >= h.validUntil || h.priorAuthority != current.authority || h.priorScope != current.scope
            || h.priorDigest != current.digest
    then Err(AuthenticationFailed)
    else if || h.priorScope.epoch == 0 || h.priorScope.epoch > MAX_LOGICAL_TIME || h.nextEpoch != h.priorScope.epoch + 1
            || h.validUntil == 0 || h.validUntil > MAX_LOGICAL_TIME || h.nextAuthority == h.priorAuthority
    then Err(InvalidInput)
    else if h.signer != current.authority then Err(AuthenticationFailed)
    else Ok(())
  }

  /** A store accepts exactly the handoffs that its own authority signed for its own pinned state and the next epoch. */
  lemma VerifyForExact(h: Handoff, current: Snapshot, now: nat)
    ensures VerifyFor(h, current, now).Ok? <==> HandoffHolds(h, current, now)
  {
  }

  /** What the certificate and revocation tables accept: no serial twice, none zero. */
  predicate Storable(revoked: seq<nat>) {
    DuplicateFree(revoked) && forall i :: 0 <= i < |revoked| ==> 0 < revoked[i] <= MAX_LOGICAL_TIME
  }

  predicate Rotates(transition: Option<Snapshot>, prior: Snapshot, authority: nat, scope: Scope) {
    && transition == Some(prior) && authority != prior.authority && scope.group == prior.scope.group && scope.epoch == prior.scope.epoch + 1
  }

  function InstallWith(row: Option<Row>, member: MemberId, authority: nat, scope: Scope, certs: seq<Certificate>, revoked: seq<nat>,
    now: nat, transition: Option<Snapshot>)
    : (Option<Row>, Result<Snapshot, DurableError>)
  {
    var roster := Verify(authority, scope, certs, revoked, now);
    if roster.Err? then (row, Err(roster.error))
    else if member !in roster.value.members then (row, Err(AuthenticationFailed))
    else
      var snapshot := Snapshot(authority, scope, roster.value.digest);
      var next := Some(Row(snapshot, certs, Sorted(revoked)));
      if row.Some? then
        var prior := row.value.snapshot;
        if || (prior.authority != authority && !Rotates(transition, prior, authority, scope))
           || prior.scope.group != scope.group || scope.epoch < prior.scope.epoch
           || (scope.epoch == prior.scope.epoch && prior.digest != snapshot.digest)
        then (row, Err(Conflict))
        else if scope.epoch == prior.scope.epoch then (row, Ok(snapshot))
        else if !Storable(revoked) then (row, Err(StorageUnavailable))
        else (next, Ok(snapshot))
      else if !Storable(revoked) then (row, Err(StorageUnavailable))
      else (next, Ok(snapshot))
  }

  function Active(row: Option<Row>, now: nat): Result<Option<Snapshot>, DurableError> {
    if row.None? then Ok(None)
    else
      var s := row.value.snapshot;
      var roster := Verify(s.authority, s.scope, row.value.certificates, row.value.revoked, now);
      if roster.Err? then Err(roster.error)
      else if roster.value.digest != s.digest then Err(Corrupt)
      else Ok(Some(s))
  }

  function InstallRotated(row: Option<Row>, member: MemberId, authority: nat, scope: Scope, certs: seq<Certificate>, revoked: seq<nat>,
    handoff: Handoff, now: nat)
    : (Option<Row>, Result<Snapshot, DurableError>)
  {
    var current := Active(row, now);
    if current.Err? then (row, Err(current.error))
    else if current.value.None? then (row, Err(AuthenticationFailed))
    else if VerifyFor(handoff, current.value.value, now).Err? then (row, Err(VerifyFor(handoff, current.value.value, now).error))
    else if || authority != handoff.nextAuthority || scope.group != current.value.value.scope.group || scope.epoch != handoff.nextEpoch
    then (row, Err(AuthenticationFailed))
    else InstallWith(row, member, authority, scope, certs, revoked, now, current.value)
  }

  class PolicyTable {
    const member: MemberId
    var row: Option<Row>

    constructor (member: MemberId)
      ensures this.member == member && row == None
    {
      this.member, row := member, None;
    }

    method InstallWithTransition(authority: nat, scope: Scope, certs: seq<Certificate>, revoked: seq<nat>, now: nat,
      transition: Option<Snapshot>)
      returns (r: Result<Snapshot, DurableError>)
      modifies this
      ensures (row, r) == InstallWith(old(row), member, authority, scope, certs, revoked, now, transition)
    {
      hide Verify, Storable;
      var roster := VerifyRoster(authority, scope, certs, revoked, now);
      if roster.Err? { return Err(roster.error); }
      if member !in roster.value.members { return Err(AuthenticationFailed); }
      var snapshot := Snapshot(authority, scope, roster.value.digest);
      if row.Some? {
        var prior := row.value.snapshot;
        var rotation := false;
        if transition.Some? {
          rotation := transition.value == prior && authority != prior.authority && scope.group == prior.scope.group
                      && scope.epoch == prior.scope.epoch + 1;
        }
        if || (prior.authority != authority && !rotation) || prior.scope.group != scope.group || scope.epoch < prior.scope.epoch
           || (scope.epoch == prior.scope.epoch && prior.digest != snapshot.digest)
        {
          return Err(Conflict);
        }
        if scope.epoch == prior.scope.epoch { return Ok(snapshot); }
      }
      if !Storable(revoked) { return Err(StorageUnavailable); }
      row := Some(Row(snapshot, certs, Sorted(revoked)));
      return Ok(snapshot);
    }

    method Install(authority: nat, scope: Scope, certs: seq<Certificate>, revoked: seq<nat>, now: nat)
      returns (r: Result<Snapshot, DurableError>)
      modifies this
      ensures (row, r) == InstallWith(old(row), member, authority, scope, certs, revoked, now, None)
    {
      r := InstallWithTransition(authority, scope, certs, revoked, now, None);
    }

    method ActivePolicy(now: nat) returns (r: Result<Option<Snapshot>, DurableError>)
      ensures r == Active(row, now)
    {
      hide Verify;
      if row.None? { return Ok(None); }
      var s := row.value.snapshot;
      var roster := VerifyRoster(s.authority, s.scope, row.value.certificates, row.value.revoked, now);
      if roster.Err? { return Err(roster.error); }
      if roster.value.digest != s.digest { return Err(Corrupt); }
      return Ok(Some(s));
    }

    method InstallRotatedPolicy(authority: nat, scope: Scope, certs: seq<Certificate>, revoked: seq<nat>, handoff: Handoff, now: nat)
      returns (r: Result<Snapshot, DurableError>)
      modifies this
      ensures (row, r) == InstallRotated(old(row), member, authority, scope, certs, revoked, handoff, now)
    {
      hide Active, InstallWith, VerifyFor;
      var current := ActivePolicy(now);
      if current.Err? { return Err(current.error); }
      if current.value.None? { return Err(AuthenticationFailed); }
      var pinned := current.value.value;
      if VerifyFor(handoff, pinned, now).Err? { return Err(VerifyFor(handoff, pinned, now).error); }
      if authority != handoff.nextAuthority || scope.group != pinned.scope.group || scope.epoch != handoff.nextEpoch {
        return Err(AuthenticationFailed);
      }
      r := InstallWithTransition(authority, scope, certs, revoked, now, Some(pinned));
    }
  }

  // ----- every history -----

  datatype Change =
    | Installs(authority: nat, scope: Scope, certs: seq<Certificate>, revoked: seq<nat>, at: nat)
    | Rotation(authority: nat, scope: Scope, certs: seq<Certificate>, revoked: seq<nat>, handoff: Handoff, at: nat)

  function Changed(row: Option<Row>, member: MemberId, c: Change): Option<Row> {
    match c
    case Installs(authority, scope, certs, revoked, at) => InstallWith(row, member, authority, scope, certs, revoked, at, None).0
    case Rotation(authority, scope, certs, revoked, handoff, at) =>
      InstallRotated(row, member, authority, scope, certs, revoked, handoff, at).0
  }

  function After(member: MemberId, changes: seq<Change>): Option<Row> {
    if changes == [] then None else Changed(After(member, changes[..|changes| - 1]), member, changes[|changes| - 1])
  }

  /** The stored tables describe a roster that verified once, with the stored digest, and lists this member. */
  ghost predicate Genuine(row: Row) {
    exists now :: Verifies(row, now)
  }

  ghost predicate Verifies(row: Row, now: nat) {
    var s := row.snapshot;
    var roster := Verify(s.authority, s.scope, row.certificates, row.revoked, now);
    roster.Ok? && roster.value.digest == s.digest
  }

  lemma SortedSerials(revoked: seq<nat>)
    ensures forall x :: x in Sorted(revoked) <==> x in revoked
  {
    assert forall x :: x in revoked <==> x in multiset(revoked);
    assert forall x :: x in Sorted(revoked) <==> x in multiset(Sorted(revoked));
  }

  /** What one change may do to the pinned policy. */
  ghost predicate Succeeds(prior: Snapshot, next: Snapshot, c: Change) {
    || next == prior
    || (&& next.scope.group == prior.scope.group && next.scope.epoch > prior.scope.epoch
        && (next.authority == prior.authority
            || (c.Rotation? && next.authority == c.handoff.nextAuthority && next.scope.epoch == prior.scope.epoch + 1
                && HandoffHolds(c.handoff, prior, c.at))))
  }

  lemma ChangeStep(row: Option<Row>, member: MemberId, c: Change)
    requires row.Some? ==> Genuine(row.value)
    ensures
      var next := Changed(row, member, c);
      && (next.Some? ==> Genuine(next.value))
      && (row.Some? ==> next.Some? && Succeeds(row.value.snapshot, next.value.snapshot, c))
  {
    hide Verify, Genuine, Storable, HandoffHolds, VerifyFor;
    var next := Changed(row, member, c);
    if next != row {
      StoredGenuine(next.value, c.authority, c.scope, c.certs, c.revoked, c.at);
      if c.Rotation? { VerifyForExact(c.handoff, row.value.snapshot, c.at); }
    }
  }

  lemma StoredGenuine(row: Row, authority: nat, scope: Scope, certs: seq<Certificate>, revoked: seq<nat>, at: nat)
    requires Verify(authority, scope, certs, revoked, at).Ok?
    requires row == Row(Snapshot(authority, scope, Verify(authority, scope, certs, revoked, at).value.digest), certs, Sorted(revoked))
    ensures Genuine(row)
  {
    InVerifyBounds(authority, scope, certs, revoked, at);
    SortedSerials(revoked);
    hide Verify;
    VerifyIgnoresOrder(authority, scope, certs, certs, revoked, Sorted(revoked), at);
    assert Verifies(row, at);
  }

  lemma InVerifyBounds(authority: nat, scope: Scope, certs: seq<Certificate>, revoked: seq<nat>, at: nat)
    requires Verify(authority, scope, certs, revoked, at).Ok?
    ensures |revoked| <= 1024
  {
  }

  lemma {:induction false} AfterGenuine(member: MemberId, changes: seq<Change>)
    ensures After(member, changes).Some? ==> Genuine(After(member, changes).value)
  {
    hide Genuine, Changed;
    if changes != [] {
      AfterGenuine(member, changes[..|changes| - 1]);
      ChangeStep(After(member, changes[..|changes| - 1]), member, changes[|changes| - 1]);
    }
  }

  /** A policy that was pinned stays pinned; each change is one of the allowed successions. */
  lemma EveryChangeSucceeds(member: MemberId, changes: seq<Change>, i: nat)
    requires i < |changes| && After(member, changes[..i]).Some?
    ensures After(member, changes[..i + 1]).Some?
    ensures Succeeds(After(member, changes[..i]).value.snapshot, After(member, changes[..i + 1]).value.snapshot, changes[i])
  {
    hide Genuine, Changed, Succeeds;
    AfterGenuine(member, changes[..i]);
    ChangeStep(After(member, changes[..i]), member, changes[i]);
    assert changes[..i + 1][..i] == changes[..i];
  }

  /**
   * In any history the group never changes, the epoch never decreases,
   * and one epoch has one authority and one roster digest.
   */
  lemma {:induction false} HistoryIsMonotone(member: MemberId, changes: seq<Change>, i: nat, j: nat)
    requires i <= j <= |changes| && After(member, changes[..i]).Some?
    ensures After(member, changes[..j]).Some?
    ensures
      var a, b := After(member, changes[..i]).value.snapshot, After(member, changes[..j]).value.snapshot;
      && a.scope.group == b.scope.group && a.scope.epoch <= b.scope.epoch && (a.scope.epoch == b.scope.epoch ==> a == b)
    decreases j - i
  {
    hide After, HandoffHolds;
    if i < j {
      HistoryIsMonotone(member, changes, i, j - 1);
      EveryChangeSucceeds(member, changes, j - 1);
    }
  }

  /** In any history and at any time, re-reading the stored policy may fail to verify but never contradicts its stored digest. */
  lemma ActiveNeverCorrupt(member: MemberId, changes: seq<Change>, now: nat)
    ensures Active(After(member, changes), now) != Err(Corrupt)
  {
    AfterGenuine(member, changes);
    var row := After(member, changes);
    hide After, Verify;
    if row.Some? {
      var s := row.value.snapshot;
      var once :| Verifies(row.value, once);
      VerifyErrors(s.authority, s.scope, row.value.certificates, row.value.revoked, now);
      if Verify(s.authority, s.scope, row.value.certificates, row.value.revoked, now).Ok? {
        DigestIsTimeless(s.authority, s.scope, row.value.certificates, row.value.revoked, once, now);
      }
    }
  }

  // ----- which installs succeed, and what they leave -----

  /** The new policy may follow the pinned one: the same again, a later epoch of one authority, or the next epoch of an endorsed one. */
  predicate MayFollow(prior: Snapshot, next: Snapshot, transition: Option<Snapshot>) {
    || next == prior
    || (&& next.scope.group == prior.scope.group && next.scope.epoch > prior.scope.epoch
        && (next.authority == prior.authority || (transition == Some(prior) && next.scope.epoch == prior.scope.epoch + 1)))
  }

  predicate Names(certs: seq<Certificate>, m: nat) {
    exists i :: 0 <= i < |certs| && certs[i].Certificate? && certs[i].claims.member == m
  }

  /**
   * An install succeeds exactly for a roster that may be made, names this member and may follow what is pinned; it then leaves the new
   * snapshot with its certificates and revocations, or what was pinned when that is the same policy. Otherwise nothing changes.
   */
  lemma InstallExact(row: Option<Row>, member: nat, authority: nat, scope: Scope, certs: seq<Certificate>, revoked: seq<nat>, now: nat,
    transition: Option<Snapshot>)
    ensures
      var (row', r) := InstallWith(row, member, authority, scope, certs, revoked, now, transition);
      && (r.Err? ==> row' == row)
      && (r.Ok? <==>
            && Rosterable(authority, scope, certs, revoked, now) && Names(certs, member) && Verify(authority, scope, certs, revoked, now).Ok?
            && var next := Snapshot(authority, scope, Verify(authority, scope, certs, revoked, now).value.digest);
               && (row.Some? ==> MayFollow(row.value.snapshot, next, transition))
               && (row.None? || row.value.snapshot != next ==> Storable(revoked)))
      && (r.Ok? ==>
            && r.value == Snapshot(authority, scope, Verify(authority, scope, certs, revoked, now).value.digest)
            && row'.Some? && row'.value.snapshot == r.value
            && (if row.Some? && row.value.snapshot == r.value then row' == row
                else row'.value.certificates == certs && multiset(row'.value.revoked) == multiset(revoked)))
  {
    VerifyExact(authority, scope, certs, revoked, now);
    hide Rosterable, Storable;
    if Verify(authority, scope, certs, revoked, now).Ok? {
      RosterIs(authority, scope, certs, revoked, now);
      hide Verify;
    }
  }

  /** A rotation succeeds exactly when the pinned policy still verifies, its authority endorsed this successor, and the install does. */
  lemma RotationExact(row: Option<Row>, member: nat, authority: nat, scope: Scope, certs: seq<Certificate>, revoked: seq<nat>, h: Handoff,
    now: nat)
    requires row.Some? ==> Genuine(row.value)
    ensures
      var (row', r) := InstallRotated(row, member, authority, scope, certs, revoked, h, now);
      && (r.Err? ==> row' == row)
      && (r.Ok? <==>
            && row.Some?
            && var s := row.value.snapshot;
               && Rosterable(s.authority, s.scope, row.value.certificates, row.value.revoked, now) && HandoffHolds(h, s, now)
               && authority == h.nextAuthority && scope == Scope(s.scope.group, h.nextEpoch)
               && InstallWith(row, member, authority, scope, certs, revoked, now, Some(s)).1.Ok?)
      && (r.Ok? ==> (row', r) == InstallWith(row, member, authority, scope, certs, revoked, now, Some(row.value.snapshot)))
  {
    hide InstallWith, Rosterable, VerifyFor, HandoffHolds;
    if row.Some? {
      var s := row.value.snapshot;
      VerifyExact(s.authority, s.scope, row.value.certificates, row.value.revoked, now);
      VerifyForExact(h, s, now);
      ActiveVerifies(row.value, now);
    }
    hide Verify, Genuine;
    InstallErr(row, member, authority, scope, certs, revoked, now, row);
  }

  lemma ActiveVerifies(row: Row, now: nat)
    requires Genuine(row)
    ensures Active(Some(row), now).Ok? <==> Verify(row.snapshot.authority, row.snapshot.scope, row.certificates, row.revoked, now).Ok?
    ensures Active(Some(row), now).Ok? ==> Active(Some(row), now) == Ok(Some(row.snapshot))
  {
    hide Verify;
    var s := row.snapshot;
    var once :| Verifies(row, once);
    if Verify(s.authority, s.scope, row.certificates, row.revoked, now).Ok? {
      DigestIsTimeless(s.authority, s.scope, row.certificates, row.revoked, once, now);
    }
  }

  lemma InstallErr(row: Option<Row>, member: nat, authority: nat, scope: Scope, certs: seq<Certificate>, revoked: seq<nat>, now: nat,
    transition: Option<Row>)
    ensures
      var t := if transition.Some? then Some(transition.value.snapshot) else None;
      var (row', r) := InstallWith(row, member, authority, scope, certs, revoked, now, t);
      r.Err? ==> row' == row
  {
    hide Verify, Storable;
  }

  /** In any history the certificates of the pinned policy name this member. */
  lemma {:induction false} PinnedNamesMember(member: nat, changes: seq<Change>)
    ensures After(member, changes).Some? ==> Names(After(member, changes).value.certificates, member)
  {
    if changes != [] {
      var before, c := After(member, changes[..|changes| - 1]), changes[|changes| - 1];
      PinnedNamesMember(member, changes[..|changes| - 1]);
      hide After, Names, InstallWith;
      match c {
        case Installs(authority, scope, certs, revoked, at) => InstallExact(before, member, authority, scope, certs, revoked, at, None);
        case Rotation(authority, scope, certs, revoked, handoff, at) =>
          if before.Some? { InstallExact(before, member, authority, scope, certs, revoked, at, Some(before.value.snapshot)); }
      }
    }
  }
}
