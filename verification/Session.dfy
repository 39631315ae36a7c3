/**
 * One endpoint of an authenticated datagram session after its handshake. The cipher is ideal: a ciphertext opens exactly
 * under the session, direction and packet number it was made for, and only if it was made.
 */
module Sessions {
  import opened Types
  import opened Words
  import opened Protocol
  import opened Replays

  const MAX_PAYLOAD: nat := 4096
  const MAX_PACKETS: nat := 0x10_0000

  datatype Error = BadInput | WrongPhase | Authentication | Replayed | TooLate | Closed | Exhausted

  datatype Role = Initiator | Responder {
    function Opposite(): Role { if Initiator? then Responder else Initiator }
  }

  /** What a session proof signs. */
  datatype ProofBody = ProofBody(scope: Scope, session: nat, member: MemberId, role: Role)

  datatype Clear = Proof(member: MemberId, key: nat, body: ProofBody) | Data(payload: Bytes) | Junk

  datatype Cipher = Cipher(session: nat, sender: Role, number: u64, clear: Clear)

  datatype Datagram = Malformed | Frame(session: nat, number: u64, cipher: Cipher)

  datatype Incoming = AuthenticatedPeer(member: MemberId) | Received(payload: Bytes)

  /** The endpoint's fields, with the replay window as the set of numbers it accepted. */
  datatype State = State(
    open: bool, session: nat, scope: Scope, roster: nat, role: Role, local: MemberId, expected: Option<MemberId>,
    peer: Option<MemberId>, sentAuth: bool, next: u64, accepted: set<u64>, started: nat, deadline: nat)
  {
    predicate IsAuthenticated() { open && sentAuth && peer.Some? }

    function Close(): State { this.(open := false, peer := None) }

    /** The checks every call starts with; expiry and a changed policy close the session. */
    function Check(r: Roster, now: nat): (State, Option<Error>) {
      if !open then (this, Some(Closed))
      else if now < started || (!IsAuthenticated() && now >= deadline) then (Close(), Some(TooLate))
      else if r.digest != roster || r.ValidateAt(now).Err? then (Close(), Some(Authentication))
      else (this, None)
    }

    function OwnProof(key: nat): Clear { Proof(local, key, ProofBody(scope, session, local, role)) }

    function FrameOf(n: u64, clear: Clear): Datagram { Frame(session, n, Cipher(session, role, n, clear)) }

    function Authenticate(key: nat, r: Roster, now: nat): (State, Result<Datagram, Error>) {
      var (s, e) := Check(r, now);
      if e.Some? then (s, Err(e.value))
      else if sentAuth then (s, Err(WrongPhase))
      else if local !in r.members || r.members[local].key != key then (s, Err(Authentication))
      else (s.(sentAuth := true), Ok(FrameOf(0, OwnProof(key))))
    }

    function Send(payload: Bytes, r: Roster, now: nat): (State, Result<Datagram, Error>) {
      var (s, e) := Check(r, now);
      if e.Some? then (s, Err(e.value))
      else if !IsAuthenticated() then (s, Err(WrongPhase))
      else if payload == [] || |payload| > MAX_PAYLOAD then (s, Err(BadInput))
      else if next >= MAX_PACKETS then (s.Close(), Err(Exhausted))
      else (s.(next := next + 1), Ok(FrameOf(next, Data(payload))))
    }

    /** The peer's proof on number 0 names the expected member, its certified key and this session and direction. */
    predicate ProofHolds(clear: Clear, r: Roster) {
      && clear.Proof? && clear.member != local && (expected.Some? ==> expected.value == clear.member)
      && clear.member in r.members && r.members[clear.member].key == clear.key
      && clear.body == ProofBody(scope, session, clear.member, role.Opposite())
    }

    predicate Opens(d: Datagram, made: set<Cipher>)
      requires d.Frame?
    {
      d.cipher in made && d.cipher.session == session && d.cipher.sender == role.Opposite() && d.cipher.number == d.number
    }

    ghost function Receive(d: Datagram, r: Roster, now: nat, made: set<Cipher>): (State, Result<Incoming, Error>) {
      var (s, e) := Check(r, now);
      if e.Some? then (s, Err(e.value))
      else if d.Malformed? || d.session != session then (s, Err(BadInput))
      else if d.number >= MAX_PACKETS then (s, Err(Exhausted))
      else if !Fresh(accepted, d.number) then (s, Err(Replayed))
      else if d.number != 0 && !IsAuthenticated() then (s, Err(WrongPhase))
      else if !Opens(d, made) then (s, Err(Authentication))
      else if d.number == 0 then
        if !ProofHolds(d.cipher.clear, r) then (s.Close(), Err(Authentication))
        else (s.(peer := Some(d.cipher.clear.member), accepted := accepted + {0}), Ok(AuthenticatedPeer(d.cipher.clear.member)))
      else if !d.cipher.clear.Data? || d.cipher.clear.payload == [] || |d.cipher.clear.payload| > MAX_PAYLOAD
      then (s.Close(), Err(BadInput))
      else (s.(accepted := accepted + {d.number}), Ok(Received(d.cipher.clear.payload)))
    }
  }

  class Session {
    const session: nat
    const scope: Scope
    const roster: nat
    const role: Role
    const local: MemberId
    const expected: Option<MemberId>
    const started: nat
    const deadline: nat
    var open: bool
    var peer: Option<MemberId>
    var sentAuth: bool
    var next: u64
    const replay: Replay

    ghost predicate Valid()
      reads this, replay
    {
      replay.Valid() && next <= MAX_PACKETS
    }

    ghost function Abstract(): State
      reads this, replay
    {
      State(open, session, scope, roster, role, local, expected, peer, sentAuth, next, replay.accepted, started, deadline)
    }

    constructor (session: nat, scope: Scope, roster: nat, role: Role, local: MemberId, expected: Option<MemberId>, started: nat,
      deadline: nat)
      ensures Valid() && fresh(replay)
      ensures Abstract() == State(true, session, scope, roster, role, local, expected, None, false, 1, {}, started, deadline)
    {
      this.session, this.scope, this.roster, this.role, this.local := session, scope, roster, role, local;
      this.expected, this.started, this.deadline := expected, started, deadline;
      open, peer, sentAuth, next := true, None, false, 1;
      replay := new Replay();
    }

    method Close()
      requires Valid()
      modifies this
      ensures Valid() && Abstract() == old(Abstract()).Close()
    {
      open := false;
      peer := None;
    }

    method Check(r: Roster, now: nat) returns (e: Option<Error>)
      requires Valid()
      modifies this
      ensures Valid() && (Abstract(), e) == old(Abstract()).Check(r, now)
    {
      if !open { return Some(Closed); }
      if now < started || (!(open && sentAuth && peer.Some?) && now >= deadline) {
        Close();
        return Some(TooLate);
      }
      if r.digest != roster || r.ValidateAt(now).Err? {
        Close();
        return Some(Authentication);
      }
      return None;
    }

    method Authenticate(key: nat, r: Roster, now: nat) returns (d: Result<Datagram, Error>)
      requires Valid()
      modifies this
      ensures Valid() && (Abstract(), d) == old(Abstract()).Authenticate(key, r, now)
    {
      var e := Check(r, now);
      if e.Some? { return Err(e.value); }
      if sentAuth { return Err(WrongPhase); }
      if local !in r.members || r.members[local].key != key { return Err(Authentication); }
      var body := ProofBody(scope, session, local, role);
      var frame := Frame(session, 0, Cipher(session, role, 0, Proof(local, key, body)));
      sentAuth := true;
      return Ok(frame);
    }

    /** A packet number is consumed before it is used, and never again. */
    method Send(payload: Bytes, r: Roster, now: nat) returns (d: Result<Datagram, Error>)
      requires Valid()
      modifies this
      ensures Valid() && (Abstract(), d) == old(Abstract()).Send(payload, r, now)
    {
      var e := Check(r, now);
      if e.Some? { return Err(e.value); }
      if !(open && sentAuth && peer.Some?) { return Err(WrongPhase); }
      if payload == [] || |payload| > MAX_PAYLOAD { return Err(BadInput); }
      if next >= MAX_PACKETS {
        Close();
        return Err(Exhausted);
      }
      var n := next;
      next := next + 1;
      return Ok(Frame(session, n, Cipher(session, role, n, Data(payload))));
    }

    method Receive(d: Datagram, r: Roster, now: nat, made: set<Cipher>) returns (i: Result<Incoming, Error>)
      requires Valid()
      modifies this, replay
      ensures Valid() && (Abstract(), i) == old(Abstract()).Receive(d, r, now, made)
    {
      var e := Check(r, now);
      if e.Some? { return Err(e.value); }
      if d.Malformed? || d.session != session { return Err(BadInput); }
      var n := d.number;
      if n >= MAX_PACKETS { return Err(Exhausted); }
      var passes := replay.Check(n);
      if !passes { return Err(Replayed); }
      if n != 0 && !(open && sentAuth && peer.Some?) { return Err(WrongPhase); }
      if !(d.cipher in made && d.cipher.session == session && d.cipher.sender == role.Opposite() && d.cipher.number == n) {
        return Err(Authentication);
      }
      var clear := d.cipher.clear;
      if n == 0 {
        if || !clear.Proof? || clear.member == local || (expected.Some? && expected.value != clear.member)
           || clear.member !in r.members || r.members[clear.member].key != clear.key
           || clear.body != ProofBody(scope, session, clear.member, role.Opposite())
        {
          Close();
          return Err(Authentication);
        }
        peer := Some(clear.member);
        replay.Accept(0);
        return Ok(AuthenticatedPeer(clear.member));
      }
      if !clear.Data? || clear.payload == [] || |clear.payload| > MAX_PAYLOAD {
        Close();
        return Err(BadInput);
      }
      replay.Accept(n);
      return Ok(Received(clear.payload));
    }
  }
}
