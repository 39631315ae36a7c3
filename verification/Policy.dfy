/**
 * Certified rosters and the pinned policy of a store. Digests are ideal: a roster digest is what it was taken of.
 * Signatures are ideal: a certificate or handoff verifies under an authority exactly when that authority made it.
 */
module Policies {
  import opened Types

  datatype Scope = Scope(group: nat, epoch: nat)

  datatype Claims = Claims(group: nat, member: MemberId, signingKey: nat, deliveryKey: nat, validFrom: nat, validUntil: nat,
    epoch: nat, serial: nat)

  /** What the bytes of a certificate parse to, if anything; the authority it names, and who signed it. */
  datatype Certificate = Garbled(text: nat) | Certificate(claims: Claims, authority: nat, signer: nat, signature: nat)

  predicate ClaimsOk(c: Claims) {
    && 0 < c.epoch <= MAX_LOGICAL_TIME && 0 < c.serial <= MAX_LOGICAL_TIME
    && c.validFrom < c.validUntil <= MAX_LOGICAL_TIME
  }

  datatype RosterDigest = RosterDigest(authority: nat, scope: Scope, canonical: map<MemberId, Certificate>, revoked: set<nat>)

  datatype VerifiedRoster = VerifiedRoster(scope: Scope, members: map<MemberId, Certificate>, digest: RosterDigest, validFrom: nat,
    validUntil: nat)

  // ----- one certificate after the other -----

  datatype Seen = Seen(members: map<MemberId, Certificate>, keys: set<nat>, deliveryKeys: set<nat>, serials: set<nat>,
    validFrom: nat, validUntil: nat)

  const NOTHING: Seen := Seen(map[], {}, {}, {}, 0, MAX_LOGICAL_TIME)

  datatype Terms = Terms(authority: nat, scope: Scope, revoked: set<nat>, now: nat)

  function Inspect(t: Terms, c: Certificate): Result<(), DurableError> {
    if c.Garbled? then Err(InvalidInput)
    else if || c.authority != t.authority || c.claims.group != t.scope.group || c.claims.epoch != t.scope.epoch
            || c.claims.serial in t.revoked || t.now < c.claims.validFrom || t.now >= c.claims.validUntil
    then Err(AuthenticationFailed)
    else if !ClaimsOk(c.claims) then Err(InvalidInput)
    else if c.signer != t.authority then Err(AuthenticationFailed)
    else Ok(())
  }

  function Admit(t: Terms, s: Seen, c: Certificate): Result<Seen, DurableError> {
    if Inspect(t, c).Err? then Err(Inspect(t, c).error)
    else if || c.claims.signingKey in s.keys || c.claims.deliveryKey in s.deliveryKeys || c.claims.serial in s.serials
            || c.claims.member in s.members
    then Err(Conflict)
    else
      Ok(Seen(s.members[c.claims.member := c], s.keys + {c.claims.signingKey}, s.deliveryKeys + {c.claims.deliveryKey},
              s.serials + {c.claims.serial},
              if s.validFrom < c.claims.validFrom then c.claims.validFrom else s.validFrom,
              if c.claims.validUntil < s.validUntil then c.claims.validUntil else s.validUntil))
  }

  function AdmitAll(t: Terms, certs: seq<Certificate>): Result<Seen, DurableError> {
    if certs == [] then Ok(NOTHING)
    else
      var before := AdmitAll(t, certs[..|certs| - 1]);
      if before.Err? then before else Admit(t, before.value, certs[|certs| - 1])
  }

  function RosterOf(authority: nat, scope: Scope, revoked: set<nat>, s: Seen): VerifiedRoster {
    VerifiedRoster(scope, s.members, RosterDigest(authority, scope, s.members, revoked), s.validFrom, s.validUntil)
  }

  function SerialSet(revoked: seq<nat>): set<nat> { set s | s in revoked }

  predicate InBounds(scope: Scope, certs: seq<Certificate>, revoked: seq<nat>, now: nat) {
    && now <= MAX_LOGICAL_TIME && 0 < scope.epoch <= MAX_LOGICAL_TIME
    && 0 < |certs| <= MAX_GROUP_MEMBERS && |revoked| <= 1024
  }

  function Verify(authority: nat, scope: Scope, certs: seq<Certificate>, revoked: seq<nat>, now: nat): Result<VerifiedRoster, DurableError> {
    if !InBounds(scope, certs, revoked, now) then Err(InvalidInput)
    else
      var serials := SerialSet(revoked);
      var seen := AdmitAll(Terms(authority, scope, serials, now), certs);
      if seen.Err? then Err(seen.error) else Ok(RosterOf(authority, scope, serials, seen.value))
  }

  /** Verification as it runs: the certificates in the order they came. */
  method VerifyRoster(authority: nat, scope: Scope, certs: seq<Certificate>, revokedSerials: seq<nat>, now: nat)
    returns (r: Result<VerifiedRoster, DurableError>)
    ensures r == Verify(authority, scope, certs, revokedSerials, now)
  {
    if now > MAX_LOGICAL_TIME { return Err(InvalidInput); }
    if || scope.epoch == 0 || scope.epoch > MAX_LOGICAL_TIME || certs == [] || |certs| > MAX_GROUP_MEMBERS
       || |revokedSerials| > 1024
    {
      return Err(InvalidInput);
    }
    var revoked := SerialSet(revokedSerials);
    ghost var t := Terms(authority, scope, revoked, now);
    var members: map<MemberId, Certificate> := map[];
    var keys, deliveryKeys, serials: set<nat> := {}, {}, {};
    var validFrom: nat, validUntil: nat := 0, MAX_LOGICAL_TIME;
    for i := 0 to |certs|
      invariant AdmitAll(t, certs[..i]) == Ok(Seen(members, keys, deliveryKeys, serials, validFrom, validUntil))
    {
      AdmitNext(t, certs, i);
      var cert := certs[i];
      var ok := Inspect(Terms(authority, scope, revoked, now), cert);
      if ok.Err? {
        FirstError(t, certs, i + 1);
        return Err(ok.error);
      }
      var c := cert.claims;
      if c.signingKey in keys || c.deliveryKey in deliveryKeys || c.serial in serials || c.member in members {
        FirstError(t, certs, i + 1);
        return Err(Conflict);
      }
      keys, deliveryKeys, serials := keys + {c.signingKey}, deliveryKeys + {c.deliveryKey}, serials + {c.serial};
      if validFrom < c.validFrom { validFrom := c.validFrom; }
      if c.validUntil < validUntil { validUntil := c.validUntil; }
      members := members[c.member := cert];
    }
    assert certs[..|certs|] == certs;
    return Ok(VerifiedRoster(scope, members, RosterDigest(authority, scope, members, revoked), validFrom, validUntil));
  }

  lemma AdmitNext(t: Terms, certs: seq<Certificate>, i: nat)
    requires i < |certs|
    ensures AdmitAll(t, certs[..i + 1]) ==
            if AdmitAll(t, certs[..i]).Err? then AdmitAll(t, certs[..i]) else Admit(t, AdmitAll(t, certs[..i]).value, certs[i])
  {
    assert certs[..i + 1][..i] == certs[..i];
  }

  /** The first refusal decides the error. */
  lemma {:induction false} FirstError(t: Terms, certs: seq<Certificate>, i: nat)
    requires i <= |certs| && AdmitAll(t, certs[..i]).Err?
    ensures AdmitAll(t, certs) == AdmitAll(t, certs[..i])
    decreases |certs| - i
  {
    if i == |certs| {
      assert certs[..i] == certs;
    } else {
      AdmitNext(t, certs, i);
      FirstError(t, certs, i + 1);
    }
  }

  // ----- what a verified roster is, whatever the order -----

  predicate Apart(a: Certificate, b: Certificate)
    requires a.Certificate? && b.Certificate?
  {
    && a.claims.member != b.claims.member && a.claims.signingKey != b.claims.signingKey
    && a.claims.deliveryKey != b.claims.deliveryKey && a.claims.serial != b.claims.serial
  }

  /** Every certificate stands on its own, and no two share a member, a key or a serial. */
  ghost predicate Consistent(t: Terms, certs: multiset<Certificate>) {
    && (forall c :: c in certs ==> Inspect(t, c).Ok? && certs[c] == 1)
    && (forall a, b :: a in certs && b in certs && a != b ==> Apart(a, b))
  }

  /** The collected roster lists exactly these certificates by member, and their common validity. */
  ghost predicate Collects(s: Seen, certs: multiset<Certificate>) {
    && ByMember(s.members, certs)
    && s.keys == (set c | c in certs && c.Certificate? :: c.claims.signingKey)
    && s.deliveryKeys == (set c | c in certs && c.Certificate? :: c.claims.deliveryKey)
    && s.serials == (set c | c in certs && c.Certificate? :: c.claims.serial)
    && IsLatest(s.validFrom, certs) && IsEarliest(s.validUntil, certs)
  }

  ghost predicate ByMember(members: map<MemberId, Certificate>, certs: multiset<Certificate>) {
    && (forall c :: c in certs ==> c.Certificate? && c.claims.member in members && members[c.claims.member] == c)
    && (forall m :: m in members ==> members[m] in certs && members[m].Certificate? && members[m].claims.member == m)
  }

  ghost predicate IsLatest(from: nat, certs: multiset<Certificate>) {
    && (forall c :: c in certs && c.Certificate? ==> c.claims.validFrom <= from)
    && (from == 0 || exists c :: c in certs && c.Certificate? && c.claims.validFrom == from)
  }

  ghost predicate IsEarliest(until: nat, certs: multiset<Certificate>) {
    && until <= MAX_LOGICAL_TIME
    && (forall c :: c in certs && c.Certificate? ==> until <= c.claims.validUntil)
    && (until == MAX_LOGICAL_TIME || exists c :: c in certs && c.Certificate? && c.claims.validUntil == until)
  }

  lemma CollectsOnce(s: Seen, s': Seen, certs: multiset<Certificate>)
    requires Collects(s, certs) && Collects(s', certs)
    ensures s == s'
  {
    assert forall m :: m in s.members ==> m in s'.members && s.members[m] == s'.members[m];
    assert forall m :: m in s'.members ==> m in s.members;
    assert s.members == s'.members;
  }

  lemma AdmitCollects(t: Terms, s: Seen, c: Certificate, certs: multiset<Certificate>)
    requires Collects(s, certs) && Admit(t, s, c).Ok?
    ensures Collects(Admit(t, s, c).value, certs + multiset{c})
  {
    InspectParsed(t, c);
    hide Inspect, IsLatest, IsEarliest;
    var s', more := Admit(t, s, c).value, certs + multiset{c};
    assert forall x :: x in more <==> x in certs || x == c;
    OneMoreMember(s.members, certs, c);
    hide ByMember;
    OneMoreKey(certs, more, c);
    LatestOf(s, s', c, certs);
  }

  lemma OneMoreKey(certs: multiset<Certificate>, more: multiset<Certificate>, c: Certificate)
    requires c.Certificate? && forall x :: x in more <==> x in certs || x == c
    ensures (set x | x in more && x.Certificate? :: x.claims.signingKey)
         == (set x | x in certs && x.Certificate? :: x.claims.signingKey) + {c.claims.signingKey}
    ensures (set x | x in more && x.Certificate? :: x.claims.deliveryKey)
         == (set x | x in certs && x.Certificate? :: x.claims.deliveryKey) + {c.claims.deliveryKey}
    ensures (set x | x in more && x.Certificate? :: x.claims.serial)
         == (set x | x in certs && x.Certificate? :: x.claims.serial) + {c.claims.serial}
  {
  }

  lemma OneMoreMember(members: map<MemberId, Certificate>, certs: multiset<Certificate>, c: Certificate)
    requires ByMember(members, certs) && c.Certificate? && c.claims.member !in members
    ensures ByMember(members[c.claims.member := c], certs + multiset{c})
  {
    assert forall x :: x in certs + multiset{c} <==> x in certs || x == c;
  }

  lemma LatestOf(s: Seen, s': Seen, c: Certificate, certs: multiset<Certificate>)
    requires IsLatest(s.validFrom, certs) && IsEarliest(s.validUntil, certs) && c.Certificate?
    requires s'.validFrom == (if s.validFrom < c.claims.validFrom then c.claims.validFrom else s.validFrom)
    requires s'.validUntil == (if c.claims.validUntil < s.validUntil then c.claims.validUntil else s.validUntil)
    ensures IsLatest(s'.validFrom, certs + multiset{c}) && IsEarliest(s'.validUntil, certs + multiset{c})
  {
    var more := certs + multiset{c};
    assert forall x :: x in more <==> x in certs || x == c;
    assert c in more;
  }

  /** A certificate is admitted exactly when it is consistent with those before it. */
  lemma AdmitConsistent(t: Terms, s: Seen, c: Certificate, certs: multiset<Certificate>)
    requires Collects(s, certs) && Consistent(t, certs)
    ensures Admit(t, s, c).Ok? <==> Consistent(t, certs + multiset{c})
  {
    hide Inspect, IsLatest, IsEarliest;
    var more := certs + multiset{c};
    assert forall x :: x in more <==> x in certs || x == c;
    if Admit(t, s, c).Ok? {
      InspectParsed(t, c);
      assert c !in certs;
      forall a, b | a in more && b in more && a != b ensures Apart(a, b) {
        if a == c { AdmittedApart(t, s, c, certs, b); } else if b == c { AdmittedApart(t, s, c, certs, a); }
      }
    }
    if Consistent(t, more) {
      assert more[c] == certs[c] + 1;
      InspectParsed(t, c);
      forall b | b in certs ensures Apart(c, b) {}
    }
  }

  lemma InspectParsed(t: Terms, c: Certificate)
    ensures Inspect(t, c).Ok? ==> c.Certificate?
    ensures Inspect(t, c).Err? ==> Inspect(t, c).error != Corrupt
  {
  }

  lemma AdmittedApart(t: Terms, s: Seen, c: Certificate, certs: multiset<Certificate>, b: Certificate)
    requires Collects(s, certs) && Admit(t, s, c).Ok? && c.Certificate? && b in certs
    ensures b.Certificate? && Apart(c, b) && Apart(b, c)
  {
    hide Inspect, IsLatest, IsEarliest;
    assert b.claims.signingKey in s.keys && b.claims.deliveryKey in s.deliveryKeys && b.claims.serial in s.serials;
  }

  lemma FewerConsistent(t: Terms, certs: multiset<Certificate>, c: Certificate)
    requires Consistent(t, certs + multiset{c})
    ensures Consistent(t, certs)
  {
    hide Inspect, Apart;
    assert forall x :: x in certs ==> x in certs + multiset{c};
    forall x | x in certs ensures certs[x] == 1 { assert (certs + multiset{c})[x] == 1; }
  }

  /** All certificates are admitted exactly when they are consistent; the roster then depends on nothing but which they are. */
  lemma {:induction false} AdmitAllExact(t: Terms, certs: seq<Certificate>)
    ensures AdmitAll(t, certs).Ok? <==> Consistent(t, multiset(certs))
    ensures AdmitAll(t, certs).Ok? ==> Collects(AdmitAll(t, certs).value, multiset(certs))
    ensures AdmitAll(t, certs).Err? ==> AdmitAll(t, certs).error != Corrupt
    decreases |certs|
  {
    hide Inspect, Collects, Admit, Consistent;
    if certs == [] {
      NothingCollected(t);
      assert multiset(certs) == multiset{};
    } else {
      var init, last := certs[..|certs| - 1], certs[|certs| - 1];
      assert certs == init + [last];
      assert multiset(certs) == multiset(init) + multiset{last};
      AdmitAllExact(t, init);
      if AdmitAll(t, init).Ok? {
        AdmitConsistent(t, AdmitAll(t, init).value, last, multiset(init));
        AdmitErrors(t, AdmitAll(t, init).value, last);
        if Admit(t, AdmitAll(t, init).value, last).Ok? {
          AdmitCollects(t, AdmitAll(t, init).value, last, multiset(init));
        }
      } else if Consistent(t, multiset(certs)) {
        FewerConsistent(t, multiset(init), last);
      }
    }
  }

  lemma AdmitErrors(t: Terms, s: Seen, c: Certificate)
    ensures Admit(t, s, c).Err? ==> Admit(t, s, c).error != Corrupt
  {
  }

  lemma NothingCollected(t: Terms)
    ensures Collects(NOTHING, multiset{}) && Consistent(t, multiset{})
  {
  }

  /** A verified roster depends on neither the order of its certificates nor the order or repetition of its revocations. */
  lemma VerifyIgnoresOrder(authority: nat, scope: Scope, certs: seq<Certificate>, certs': seq<Certificate>, revoked: seq<nat>,
    revoked': seq<nat>, now: nat)
    requires multiset(certs) == multiset(certs') && (forall x :: x in revoked <==> x in revoked') && |revoked| <= 1024 && |revoked'| <= 1024
    ensures Verify(authority, scope, certs, revoked, now).Ok? <==> Verify(authority, scope, certs', revoked', now).Ok?
    ensures Verify(authority, scope, certs, revoked, now).Ok? ==>
              Verify(authority, scope, certs, revoked, now) == Verify(authority, scope, certs', revoked', now)
  {
    hide AdmitAll, Consistent, Collects;
    assert |certs| == |multiset(certs)| == |multiset(certs')| == |certs'|;
    var serials := SerialSet(revoked);
    assert serials == SerialSet(revoked');
    hide SerialSet;
    var t := Terms(authority, scope, serials, now);
    AdmitAllExact(t, certs);
    AdmitAllExact(t, certs');
    if AdmitAll(t, certs).Ok? { CollectsOnce(AdmitAll(t, certs).value, AdmitAll(t, certs').value, multiset(certs)); }
  }

  /** The digest does not depend on when the roster was verified. */
  lemma DigestIsTimeless(authority: nat, scope: Scope, certs: seq<Certificate>, revoked: seq<nat>, now: nat, later: nat)
    requires Verify(authority, scope, certs, revoked, now).Ok? && Verify(authority, scope, certs, revoked, later).Ok?
    ensures Verify(authority, scope, certs, revoked, now).value.digest == Verify(authority, scope, certs, revoked, later).value.digest
  {
    hide AdmitAll, Consistent, Collects;
    var serials := SerialSet(revoked);
    AdmitAllExact(Terms(authority, scope, serials, now), certs);
    AdmitAllExact(Terms(authority, scope, serials, later), certs);
    CollectsOnce(AdmitAll(Terms(authority, scope, serials, now), certs).value,
                 AdmitAll(Terms(authority, scope, serials, later), certs).value, multiset(certs));
  }

  lemma VerifyErrors(authority: nat, scope: Scope, certs: seq<Certificate>, revoked: seq<nat>, now: nat)
    ensures Verify(authority, scope, certs, revoked, now).Err? ==> Verify(authority, scope, certs, revoked, now).error != Corrupt
  {
    hide AdmitAll, Consistent, Collects;
    AdmitAllExact(Terms(authority, scope, SerialSet(revoked), now), certs);
  }

  // ----- what verification accepts -----

  /** A certificate that stands on its own: of this authority, group and epoch, signed by it, in time, in range and not revoked. */
  predicate StandsAlone(authority: nat, scope: Scope, revoked: seq<nat>, now: nat, c: Certificate) {
    && c.Certificate? && c.authority == authority && c.signer == authority
    && c.claims.group == scope.group && c.claims.epoch == scope.epoch && 0 < c.claims.serial <= MAX_LOGICAL_TIME
    && c.claims.serial !in revoked && c.claims.validFrom <= now < c.claims.validUntil <= MAX_LOGICAL_TIME
  }

  /** Different members, signing keys, delivery keys and serials. */
  predicate Different(a: Certificate, b: Certificate) {
    && a.Certificate? && b.Certificate? && a.claims.member != b.claims.member && a.claims.serial != b.claims.serial
    && a.claims.signingKey != b.claims.signingKey && a.claims.deliveryKey != b.claims.deliveryKey
  }

  /** What a roster must be made of. */
  ghost predicate Rosterable(authority: nat, scope: Scope, certs: seq<Certificate>, revoked: seq<nat>, now: nat) {
    && now <= MAX_LOGICAL_TIME && 0 < scope.epoch <= MAX_LOGICAL_TIME && 1 <= |certs| <= 50 && |revoked| <= 1024
    && (forall i :: 0 <= i < |certs| ==> StandsAlone(authority, scope, revoked, now, certs[i]))
    && (forall i, j :: 0 <= i < j < |certs| ==> Different(certs[i], certs[j]))
  }

  lemma InspectStands(authority: nat, scope: Scope, revoked: seq<nat>, now: nat, c: Certificate)
    requires 0 < scope.epoch <= MAX_LOGICAL_TIME
    ensures Inspect(Terms(authority, scope, SerialSet(revoked), now), c).Ok? <==> StandsAlone(authority, scope, revoked, now, c)
  {
  }

  lemma DifferentApart(certs: seq<Certificate>)
    requires forall i :: 0 <= i < |certs| ==> certs[i].Certificate?
    ensures
      (forall i, j :: 0 <= i < j < |certs| ==> Different(certs[i], certs[j])) <==>
        (forall c :: c in multiset(certs) ==> multiset(certs)[c] == 1)
        && (forall a, b :: a in multiset(certs) && b in multiset(certs) && a != b ==> Apart(a, b))
  {
    if forall i, j :: 0 <= i < j < |certs| ==> Different(certs[i], certs[j]) {
      forall c | c in multiset(certs) ensures multiset(certs)[c] == 1 { OnceInMultiset(certs, c); }
      forall a, b | a in multiset(certs) && b in multiset(certs) && a != b ensures Apart(a, b) {
        assert a in certs && b in certs;
        var i :| 0 <= i < |certs| && certs[i] == a;
        var j :| 0 <= j < |certs| && certs[j] == b;
        assert Different(certs[if i < j then i else j], certs[if i < j then j else i]);
      }
    } else if forall c :: c in multiset(certs) ==> multiset(certs)[c] == 1 {
      var i, j :| 0 <= i < j < |certs| && !Different(certs[i], certs[j]);
      assert certs[i] in multiset(certs) && certs[j] in multiset(certs);
      if certs[i] == certs[j] { TwiceInMultiset(certs, i, j); }
    }
  }

  lemma {:induction false} OnceInMultiset(certs: seq<Certificate>, c: Certificate)
    requires c in certs && forall i, j :: 0 <= i < j < |certs| ==> certs[i] != certs[j]
    ensures multiset(certs)[c] == 1
  {
    var i :| 0 <= i < |certs| && certs[i] == c;
    assert certs == certs[..i] + [c] + certs[i + 1..];
    assert multiset(certs) == multiset(certs[..i]) + multiset{c} + multiset(certs[i + 1..]);
    assert c !in certs[..i] && c !in certs[i + 1..];
  }

  lemma TwiceInMultiset(certs: seq<Certificate>, i: nat, j: nat)
    requires i < j < |certs| && certs[i] == certs[j]
    ensures multiset(certs)[certs[i]] >= 2
  {
    assert certs == certs[..j] + [certs[j]] + certs[j + 1..];
    assert multiset(certs) == multiset(certs[..j]) + multiset{certs[j]} + multiset(certs[j + 1..]);
    assert certs[..j][i] == certs[i];
  }

  /** Verification succeeds exactly for rosters that may be made: bounds, every certificate on its own, and no two alike in anything. */
  lemma VerifyExact(authority: nat, scope: Scope, certs: seq<Certificate>, revoked: seq<nat>, now: nat)
    ensures Verify(authority, scope, certs, revoked, now).Ok? <==> Rosterable(authority, scope, certs, revoked, now)
  {
    var t := Terms(authority, scope, SerialSet(revoked), now);
    AdmitAllExact(t, certs);
    hide AdmitAll, Collects, Inspect, Apart, Different, StandsAlone, SerialSet;
    if InBounds(scope, certs, revoked, now) {
      forall i | 0 <= i < |certs| ensures Inspect(t, certs[i]).Ok? <==> StandsAlone(authority, scope, revoked, now, certs[i]) {
        InspectStands(authority, scope, revoked, now, certs[i]);
      }
      if Consistent(t, multiset(certs)) || Rosterable(authority, scope, certs, revoked, now) {
        forall i | 0 <= i < |certs| ensures certs[i].Certificate? && Inspect(t, certs[i]).Ok? {
          assert certs[i] in multiset(certs);
          InspectParsed(t, certs[i]);
        }
        DifferentApart(certs);
      }
    }
  }

  /** The members of a verified roster are those of its certificates, each under its own; and it is valid while all of them are. */
  lemma RosterIs(authority: nat, scope: Scope, certs: seq<Certificate>, revoked: seq<nat>, now: nat)
    requires Verify(authority, scope, certs, revoked, now).Ok?
    ensures
      var r := Verify(authority, scope, certs, revoked, now).value;
      && r.scope == scope
      && (forall m :: m in r.members <==> exists i :: 0 <= i < |certs| && certs[i].Certificate? && certs[i].claims.member == m)
      && (forall i :: 0 <= i < |certs| ==>
            certs[i].Certificate? && certs[i].claims.member in r.members && r.members[certs[i].claims.member] == certs[i])
      && (forall x: nat :: AllInTime(certs, x) <==> r.validFrom <= x < r.validUntil)
  {
    var t := Terms(authority, scope, SerialSet(revoked), now);
    AdmitAllExact(t, certs);
    var s := AdmitAll(t, certs).value;
    assert Collects(s, multiset(certs));
    hide AdmitAll, Consistent, Inspect, Apart, SerialSet;
    forall i | 0 <= i < |certs| ensures certs[i] in multiset(certs) {}
    forall m | m in s.members ensures exists i :: 0 <= i < |certs| && certs[i].Certificate? && certs[i].claims.member == m {
      assert s.members[m] in multiset(certs);
      assert s.members[m] in certs;
    }
    WindowOf(s, certs);
  }

  predicate InTime(c: Certificate, x: nat) { c.Certificate? && c.claims.validFrom <= x < c.claims.validUntil }

  /** A moment within the calendar at which every certificate is valid. */
  predicate AllInTime(certs: seq<Certificate>, x: nat) { x < MAX_LOGICAL_TIME && forall i :: 0 <= i < |certs| ==> InTime(certs[i], x) }

  lemma WindowOf(s: Seen, certs: seq<Certificate>)
    requires IsLatest(s.validFrom, multiset(certs)) && IsEarliest(s.validUntil, multiset(certs))
    requires forall i :: 0 <= i < |certs| ==> certs[i].Certificate?
    ensures forall x: nat :: AllInTime(certs, x) <==> s.validFrom <= x < s.validUntil
  {
    forall i | 0 <= i < |certs| ensures certs[i] in multiset(certs) {}
    forall x: nat | AllInTime(certs, x) ensures s.validFrom <= x < s.validUntil {
      forall c | c in multiset(certs) ensures InTime(c, x) { assert c in certs; }
    }
  }

  /** No member of a verified roster is revoked, out of its time, of another group, or certified by anyone else. */
  lemma MembersStand(authority: nat, scope: Scope, certs: seq<Certificate>, revoked: seq<nat>, now: nat, m: MemberId)
    requires Verify(authority, scope, certs, revoked, now).Ok? && m in Verify(authority, scope, certs, revoked, now).value.members
    ensures
      var c := Verify(authority, scope, certs, revoked, now).value.members[m];
      && StandsAlone(authority, scope, revoked, now, c) && c.claims.member == m && c in certs
  {
    VerifyExact(authority, scope, certs, revoked, now);
    RosterIs(authority, scope, certs, revoked, now);
    hide Verify, Different, StandsAlone;
  }

  /** Two verified rosters have one digest exactly when they have one authority and scope, the same certificates and the same revocations. */
  lemma DigestExact(a: nat, sa: Scope, certsA: seq<Certificate>, revokedA: seq<nat>, nowA: nat,
    b: nat, sb: Scope, certsB: seq<Certificate>, revokedB: seq<nat>, nowB: nat)
    requires Verify(a, sa, certsA, revokedA, nowA).Ok? && Verify(b, sb, certsB, revokedB, nowB).Ok?
    ensures
      Verify(a, sa, certsA, revokedA, nowA).value.digest == Verify(b, sb, certsB, revokedB, nowB).value.digest <==>
        && a == b && sa == sb && (forall c :: c in certsA <==> c in certsB) && (forall x :: x in revokedA <==> x in revokedB)
  {
    var ta, tb := Terms(a, sa, SerialSet(revokedA), nowA), Terms(b, sb, SerialSet(revokedB), nowB);
    AdmitAllExact(ta, certsA);
    AdmitAllExact(tb, certsB);
    var ra, rb := AdmitAll(ta, certsA).value, AdmitAll(tb, certsB).value;
    assert ByMember(ra.members, multiset(certsA)) && ByMember(rb.members, multiset(certsB));
    hide AdmitAll, Consistent, Collects;
    SameMembers(ra.members, rb.members, certsA, certsB);
    assert SerialSet(revokedA) == SerialSet(revokedB) <==> forall x :: x in revokedA <==> x in revokedB by {
      if SerialSet(revokedA) == SerialSet(revokedB) {
        forall x ensures x in revokedA <==> x in revokedB { assert x in SerialSet(revokedA) <==> x in SerialSet(revokedB); }
      }
    }
  }

  lemma SameMembers(ma: map<MemberId, Certificate>, mb: map<MemberId, Certificate>, certsA: seq<Certificate>, certsB: seq<Certificate>)
    requires ByMember(ma, multiset(certsA)) && ByMember(mb, multiset(certsB))
    ensures ma == mb <==> forall c :: c in certsA <==> c in certsB
  {
    assert forall c :: c in certsA <==> c in multiset(certsA);
    assert forall c :: c in certsB <==> c in multiset(certsB);
    if forall c :: c in certsA <==> c in certsB {
      forall m | m in ma ensures m in mb && mb[m] == ma[m] { assert ma[m] in multiset(certsB); }
      forall m | m in mb ensures m in ma { assert mb[m] in multiset(certsA); }
    }
    if ma == mb {
      forall c ensures c in certsA <==> c in certsB {
        if c in certsA { assert c in multiset(certsA); assert ma[c.claims.member] == c; }
        if c in certsB { assert c in multiset(certsB); assert mb[c.claims.member] == c; }
      }
    }
  }
}
