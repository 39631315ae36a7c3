/**
 * The durable-receive reducer: inspect, verify, commit. A finished chunk transfer is never a delivery;
 * a delivery is reported only for a receipt that is already durable.
 */
module DurableReceives {
  import opened Types
  import opened Words
  import opened Protocol

  const MAX_PENDING_RECEIVES: nat := 8
  const LAST: u64 := 0xFFFF_FFFF_FFFF_FFFF

  datatype Token = Token(incarnation: nat, sequence: u64)

  datatype Phase = Inspecting | Verifying | Committing

  datatype Event = Received(subject: ObjectId) | NeedsRetry(subject: ObjectId, error: DurableError)

  datatype Effect = Inspect(token: Token, subject: ObjectId) | Verify(token: Token, subject: ObjectId)
                  | Commit(token: Token, proof: VerifiedDelivery)

  datatype Transition = Transition(effect: Option<Effect>, event: Option<Event>)

  const QUIET: Transition := Transition(None, None)

  datatype Pending = Pending(token: Token, phase: Phase)

  datatype Receiver = Receiver(member: MemberId, incarnation: nat, next: u64, pending: map<ObjectId, Pending>)

  predicate Waits(s: Receiver, id: ObjectId, token: Token, phase: Option<Phase>) {
    id in s.pending && s.pending[id].token == token && (phase.None? || s.pending[id].phase == phase.value)
  }

  ghost function Locate(s: Receiver, token: Token, phase: Option<Phase>): (r: Option<ObjectId>)
    ensures r.Some? ==> Waits(s, r.value, token, phase)
    ensures r.None? ==> forall id :: !Waits(s, id, token, phase)
  {
    if exists id :: Waits(s, id, token, phase) then
      var id :| Waits(s, id, token, phase);
      Some(id)
    else None
  }

  // ----- the transitions -----

  function Moved(s: Receiver, id: ObjectId, phase: Phase): Receiver
    requires s.next < LAST
  {
    s.(next := s.next + 1, pending := s.pending[id := Pending(Token(s.incarnation, s.next), phase)])
  }

  function Dropped(s: Receiver, id: ObjectId): Receiver { s.(pending := s.pending - {id}) }

  function OnStart(s: Receiver, id: ObjectId): (Receiver, Result<Transition, DurableError>) {
    if id in s.pending then (s, Ok(QUIET))
    else if |s.pending| >= MAX_PENDING_RECEIVES || s.next == LAST then (s, Err(ResourcePressure))
    else (Moved(s, id, Inspecting), Ok(Transition(Some(Inspect(Token(s.incarnation, s.next), id)), None)))
  }

  ghost function OnInspected(s: Receiver, token: Token, committed: Option<ObjectId>): (Receiver, Result<Transition, DurableError>) {
    var located := Locate(s, token, Some(Inspecting));
    if located.None? then (s, Err(Conflict))
    else if committed.Some? then
      if committed.value != located.value then (s, Err(Conflict))
      else (Dropped(s, located.value), Ok(Transition(None, Some(Received(located.value)))))
    else if s.next == LAST then (s, Err(ResourcePressure))
    else
      (Moved(s, located.value, Verifying), Ok(Transition(Some(Verify(Token(s.incarnation, s.next), located.value)), None)))
  }

  ghost function OnVerified(s: Receiver, token: Token, proof: VerifiedDelivery): (Receiver, Result<Transition, DurableError>) {
    var located := Locate(s, token, Some(Verifying));
    if located.None? then (s, Err(Conflict))
    else if proof.Subject() != located.value || proof.member != s.member then (s, Err(Conflict))
    else if s.next == LAST then (s, Err(ResourcePressure))
    else (Moved(s, located.value, Committing), Ok(Transition(Some(Commit(Token(s.incarnation, s.next), proof)), None)))
  }

  ghost function OnCommitted(s: Receiver, token: Token, committed: ObjectId): (Receiver, Result<Transition, DurableError>) {
    var located := Locate(s, token, Some(Committing));
    if located.None? then (s, Err(Conflict))
    else if located.value != committed then (s, Err(Conflict))
    else (Dropped(s, located.value), Ok(Transition(None, Some(Received(located.value)))))
  }

  ghost function OnFailed(s: Receiver, token: Token, error: DurableError): (Receiver, Result<Transition, DurableError>) {
    var located := Locate(s, token, None);
    if located.None? then (s, Err(Conflict))
    else (Dropped(s, located.value), Ok(Transition(None, Some(NeedsRetry(located.value, error)))))
  }

  datatype Call =
    | StartCall(subject: ObjectId)
    | InspectedCall(token: Token, committed: Option<ObjectId>)
    | VerifiedCall(token: Token, proof: VerifiedDelivery)
    | CommittedCall(token: Token, subject: ObjectId)
    | FailedCall(token: Token, error: DurableError)

  ghost function Step(s: Receiver, c: Call): (Receiver, Result<Transition, DurableError>) {
    match c
    case StartCall(id) => OnStart(s, id)
    case InspectedCall(token, committed) => OnInspected(s, token, committed)
    case VerifiedCall(token, proof) => OnVerified(s, token, proof)
    case CommittedCall(token, id) => OnCommitted(s, token, id)
    case FailedCall(token, error) => OnFailed(s, token, error)
  }

  function EffectOf(r: Result<Transition, DurableError>): Option<Effect> { if r.Ok? then r.value.effect else None }
  function EventOf(r: Result<Transition, DurableError>): Option<Event> { if r.Ok? then r.value.event else None }

  // ----- the invariant -----

  predicate ReceiverOk(s: Receiver) {
    && s.next > 0 && |s.pending| <= MAX_PENDING_RECEIVES
    && (forall id :: id in s.pending ==> s.pending[id].token.incarnation == s.incarnation && 0 < s.pending[id].token.sequence < s.next)
    && (forall a, b :: a in s.pending && b in s.pending && s.pending[a].token == s.pending[b].token ==> a == b)
  }

  ghost predicate Spent(s: Receiver, t: Token) {
    t.sequence < s.next && forall id :: id in s.pending ==> s.pending[id].token != t
  }

  ghost predicate SpentStay(s: Receiver, s': Receiver) { forall t :: Spent(s, t) ==> Spent(s', t) }

  lemma MoveKeeps(s: Receiver, id: ObjectId, phase: Phase)
    requires ReceiverOk(s) && s.next < LAST && (id in s.pending || |s.pending| < MAX_PENDING_RECEIVES)
    ensures ReceiverOk(Moved(s, id, phase)) && SpentStay(s, Moved(s, id, phase))
    ensures |Moved(s, id, phase).pending| == |s.pending| + (if id in s.pending then 0 else 1)
    ensures id in s.pending ==> Spent(Moved(s, id, phase), s.pending[id].token)
  {
    assert Moved(s, id, phase).pending.Keys == s.pending.Keys + {id};
    assert |Moved(s, id, phase).pending| == |Moved(s, id, phase).pending.Keys| && |s.pending| == |s.pending.Keys|;
  }

  lemma DropKeeps(s: Receiver, id: ObjectId)
    requires ReceiverOk(s) && id in s.pending
    ensures ReceiverOk(Dropped(s, id)) && SpentStay(s, Dropped(s, id)) && |Dropped(s, id).pending| == |s.pending| - 1
    ensures Spent(Dropped(s, id), s.pending[id].token)
  {
    assert Dropped(s, id).pending.Keys == s.pending.Keys - {id};
    assert |Dropped(s, id).pending| == |Dropped(s, id).pending.Keys| && |s.pending| == |s.pending.Keys|;
  }

  /** What every call guarantees; `token` is the one a result came under, none for a start. */
  ghost predicate Sound(s: Receiver, s': Receiver, r: Result<Transition, DurableError>, token: Option<Token>) {
    && ReceiverOk(s') && (r.Err? ==> s' == s) && (EffectOf(r).None? || EventOf(r).None?)
    && |s'.pending| == |s.pending| + (if token.None? && EffectOf(r).Some? then 1 else 0) - (if EventOf(r).Some? then 1 else 0)
    && (EffectOf(r).Some? ==> EffectOf(r).value.token == Token(s.incarnation, s.next) && s'.next == s.next + 1)
    && (EffectOf(r).None? ==> s'.next == s.next) && s'.incarnation == s.incarnation
    && SpentStay(s, s')
    && (token.Some? && r.Ok? ==> Spent(s', token.value))
  }

  lemma RefusedSound(s: Receiver, r: Result<Transition, DurableError>, token: Option<Token>)
    requires ReceiverOk(s) && (r.Err? || (token.None? && r == Ok(QUIET)))
    ensures Sound(s, s, r, token)
  {
    hide ReceiverOk, Spent;
  }

  lemma MovedSound(s: Receiver, id: ObjectId, phase: Phase, effect: Effect, token: Option<Token>)
    requires ReceiverOk(s) && s.next < LAST && effect.token == Token(s.incarnation, s.next)
    requires if token.None? then id !in s.pending && |s.pending| < MAX_PENDING_RECEIVES
             else id in s.pending && s.pending[id].token == token.value
    ensures Sound(s, Moved(s, id, phase), Ok(Transition(Some(effect), None)), token)
  {
    hide ReceiverOk, Spent, SpentStay;
    MoveKeeps(s, id, phase);
  }

  lemma DroppedSound(s: Receiver, id: ObjectId, event: Event, token: Token)
    requires ReceiverOk(s) && id in s.pending && s.pending[id].token == token
    ensures Sound(s, Dropped(s, id), Ok(Transition(None, Some(event))), Some(token))
  {
    hide ReceiverOk, Spent, SpentStay;
    DropKeeps(s, id);
  }

  lemma StartSound(s: Receiver, id: ObjectId)
    requires ReceiverOk(s)
    ensures var (s', r) := OnStart(s, id); Sound(s, s', r, None)
  {
    hide Sound, ReceiverOk, Moved;
    var r := OnStart(s, id).1;
    if EffectOf(r).Some? { MovedSound(s, id, Inspecting, EffectOf(r).value, None); } else { RefusedSound(s, r, None); }
  }

  lemma InspectedSound(s: Receiver, token: Token, committed: Option<ObjectId>)
    requires ReceiverOk(s)
    ensures var (s', r) := OnInspected(s, token, committed); Sound(s, s', r, Some(token))
  {
    hide Sound, ReceiverOk, Moved, Dropped, Locate;
    var r, located := OnInspected(s, token, committed).1, Locate(s, token, Some(Inspecting));
    if EffectOf(r).Some? { MovedSound(s, located.value, Verifying, EffectOf(r).value, Some(token)); }
    else if EventOf(r).Some? { DroppedSound(s, located.value, EventOf(r).value, token); }
    else { RefusedSound(s, r, Some(token)); }
  }

  lemma VerifiedSound(s: Receiver, token: Token, proof: VerifiedDelivery)
    requires ReceiverOk(s)
    ensures var (s', r) := OnVerified(s, token, proof); Sound(s, s', r, Some(token))
  {
    hide Sound, ReceiverOk, Moved, Dropped, Locate;
    var r, located := OnVerified(s, token, proof).1, Locate(s, token, Some(Verifying));
    if EffectOf(r).Some? { MovedSound(s, located.value, Committing, EffectOf(r).value, Some(token)); }
    else { RefusedSound(s, r, Some(token)); }
  }

  lemma CommittedSound(s: Receiver, token: Token, id: ObjectId)
    requires ReceiverOk(s)
    ensures var (s', r) := OnCommitted(s, token, id); Sound(s, s', r, Some(token))
  {
    hide Sound, ReceiverOk, Moved, Dropped, Locate;
    var r, located := OnCommitted(s, token, id).1, Locate(s, token, Some(Committing));
    if EventOf(r).Some? { DroppedSound(s, located.value, EventOf(r).value, token); } else { RefusedSound(s, r, Some(token)); }
  }

  lemma FailedSound(s: Receiver, token: Token, error: DurableError)
    requires ReceiverOk(s)
    ensures var (s', r) := OnFailed(s, token, error); Sound(s, s', r, Some(token))
  {
    hide Sound, ReceiverOk, Moved, Dropped, Locate;
    var r, located := OnFailed(s, token, error).1, Locate(s, token, None);
    if EventOf(r).Some? { DroppedSound(s, located.value, EventOf(r).value, token); } else { RefusedSound(s, r, Some(token)); }
  }

  function TokenOf(c: Call): Option<Token> { if c.StartCall? then None else Some(c.token) }

  /**
   * Every call keeps the invariant; a refused one changes nothing. The count of pending objects goes up exactly for a start
   * with an effect and down exactly for an event; new effects carry fresh tokens; a taken result spends its token.
   */
  lemma StepSound(s: Receiver, c: Call)
    requires ReceiverOk(s)
    ensures Sound(s, Step(s, c).0, Step(s, c).1, TokenOf(c))
  {
    hide Sound, ReceiverOk, OnStart, OnInspected, OnVerified, OnCommitted, OnFailed;
    match c {
      case StartCall(id) => StartSound(s, id);
      case InspectedCall(token, committed) => InspectedSound(s, token, committed);
      case VerifiedCall(token, proof) => VerifiedSound(s, token, proof);
      case CommittedCall(token, id) => CommittedSound(s, token, id);
      case FailedCall(token, error) => FailedSound(s, token, error);
    }
  }

  // ----- every run -----

  datatype Trace = Trace(state: Receiver, starts: nat, events: seq<Event>, effects: seq<Effect>)

  ghost function Run(start: Receiver, calls: seq<Call>): Trace {
    if calls == [] then Trace(start, 0, [], [])
    else
      var t, c := Run(start, calls[..|calls| - 1]), calls[|calls| - 1];
      var (s, r) := Step(t.state, c);
      Trace(s, if c.StartCall? && EffectOf(r).Some? then t.starts + 1 else t.starts,
            if EventOf(r).Some? then t.events + [EventOf(r).value] else t.events,
            if EffectOf(r).Some? then t.effects + [EffectOf(r).value] else t.effects)
  }

  predicate EffectsOk(t: Trace) {
    && (forall i :: 0 <= i < |t.effects| ==>
          t.effects[i].token.incarnation == t.state.incarnation && t.effects[i].token.sequence < t.state.next)
    && (forall i, j :: 0 <= i < j < |t.effects| ==> t.effects[i].token.sequence < t.effects[j].token.sequence)
  }

  /** Every object that started has ended with exactly one event or is pending, at most eight are, and no token is used twice. */
  lemma {:induction false} RunConserves(start: Receiver, calls: seq<Call>)
    requires ReceiverOk(start) && start.pending == map[]
    ensures
      var t := Run(start, calls);
      && ReceiverOk(t.state) && t.starts == |t.events| + |t.state.pending| && |t.state.pending| <= MAX_PENDING_RECEIVES && EffectsOk(t)
  {
    hide Step;
    if calls != [] {
      var init, c := calls[..|calls| - 1], calls[|calls| - 1];
      RunConserves(start, init);
      StepSound(Run(start, init).state, c);
      hide SpentStay;
    }
  }

  lemma {:induction false} RunKeeps(s: Receiver, calls: seq<Call>, t: Token)
    requires ReceiverOk(s) && Spent(s, t)
    ensures ReceiverOk(Run(s, calls).state) && Spent(Run(s, calls).state, t)
  {
    hide ReceiverOk, Step, Spent;
    if calls != [] {
      RunKeeps(s, calls[..|calls| - 1], t);
      StepSound(Run(s, calls[..|calls| - 1]).state, calls[|calls| - 1]);
    }
  }

  function PhaseOf(c: Call): Option<Phase> {
    match c
    case InspectedCall(_, _) => Some(Inspecting)
    case VerifiedCall(_, _) => Some(Verifying)
    case CommittedCall(_, _) => Some(Committing)
    case _ => None
  }

  /** A result nobody waits for in its phase is refused and changes nothing. */
  lemma UnawaitedRefused(s: Receiver, c: Call)
    requires !c.StartCall? && forall id :: !Waits(s, id, c.token, PhaseOf(c))
    ensures Step(s, c) == (s, Err(Conflict))
  {
    assert Locate(s, c.token, PhaseOf(c)).None?;
    hide Locate, Waits;
    match c {
      case InspectedCall(_, _) =>
      case VerifiedCall(_, _) =>
      case CommittedCall(_, _) =>
      case FailedCall(_, _) =>
    }
  }

  /** A taken result is refused for ever after: no delivery is reported twice for one start. */
  lemma TakenOnce(s: Receiver, c: Call, calls: seq<Call>, again: Call)
    requires ReceiverOk(s) && !c.StartCall? && Step(s, c).1.Ok? && !again.StartCall? && again.token == c.token
    ensures
      var later := Run(Step(s, c).0, calls).state;
      Step(later, again) == (later, Err(Conflict))
  {
    StepSound(s, c);
    RunKeeps(Step(s, c).0, calls, c.token);
    UnawaitedRefused(Run(Step(s, c).0, calls).state, again);
  }

  /** The object reported as received is the one that was started, inspected or verified for this member under this token. */
  lemma ReceivedIsAwaited(s: Receiver, c: Call)
    requires EventOf(Step(s, c).1).Some? && EventOf(Step(s, c).1).value.Received?
    ensures
      var id := EventOf(Step(s, c).1).value.subject;
      (c.InspectedCall? && Waits(s, id, c.token, Some(Inspecting)) && c.committed == Some(id))
      || (c.CommittedCall? && Waits(s, id, c.token, Some(Committing)) && c.subject == id)
  {
    hide Locate;
  }

  // ----- a whole receive -----

  lemma Found(s: Receiver, id: ObjectId, phase: Option<Phase>)
    requires ReceiverOk(s) && id in s.pending && (phase.None? || s.pending[id].phase == phase.value)
    ensures Locate(s, s.pending[id].token, phase) == Some(id)
  {
    assert Waits(s, id, s.pending[id].token, phase);
  }

  function Fresh(s: Receiver, k: nat): Token
    requires s.next as nat + k <= LAST as nat
  {
    Token(s.incarnation, (s.next as nat + k) as u64)
  }

  /**
   * A host that does as it is asked has the object reported once, whatever else is pending: inspect it, verify it, commit exactly the
   * proof it gave for this member; and afterwards nothing of it is left.
   */
  lemma ReceiveCompletes(s: Receiver, id: ObjectId, proof: VerifiedDelivery)
    requires ReceiverOk(s) && id !in s.pending && |s.pending| < MAX_PENDING_RECEIVES && s.next as nat + 3 <= LAST as nat
    requires proof.Subject() == id && proof.member == s.member
    ensures
      var (s1, r1) := Step(s, StartCall(id));
      var (s2, r2) := Step(s1, InspectedCall(Fresh(s, 0), None));
      var (s3, r3) := Step(s2, VerifiedCall(Fresh(s, 1), proof));
      var (s4, r4) := Step(s3, CommittedCall(Fresh(s, 2), id));
      && r1 == Ok(Transition(Some(Inspect(Fresh(s, 0), id)), None))
      && r2 == Ok(Transition(Some(Verify(Fresh(s, 1), id)), None))
      && r3 == Ok(Transition(Some(Commit(Fresh(s, 2), proof)), None))
      && r4 == Ok(Transition(None, Some(Received(id)))) && s4.pending == s.pending
  {
    hide ReceiverOk, Locate;
    var s1 := Step(s, StartCall(id)).0;
    StepSound(s, StartCall(id));
    Found(s1, id, Some(Inspecting));
    var s2 := Step(s1, InspectedCall(Fresh(s, 0), None)).0;
    StepSound(s1, InspectedCall(Fresh(s, 0), None));
    Found(s2, id, Some(Verifying));
    var s3 := Step(s2, VerifiedCall(Fresh(s, 1), proof)).0;
    StepSound(s2, VerifiedCall(Fresh(s, 1), proof));
    Found(s3, id, Some(Committing));
    assert s3.pending - {id} == s.pending;
  }

  /** A receipt that is durable already ends it at once, a foreign one or a foreign proof conflicts, and a failure ends it with a retry. */
  lemma ReceiveEnds(s: Receiver, id: ObjectId, committed: ObjectId, proof: VerifiedDelivery, error: DurableError)
    requires ReceiverOk(s) && id in s.pending
    ensures
      var p := s.pending[id];
      && (p.phase.Inspecting? ==>
            Step(s, InspectedCall(p.token, Some(committed)))
              == if committed == id then (s.(pending := s.pending - {id}), Ok(Transition(None, Some(Received(id))))) else (s, Err(Conflict)))
      && (p.phase.Verifying? && (proof.Subject() != id || proof.member != s.member) ==>
            Step(s, VerifiedCall(p.token, proof)) == (s, Err(Conflict)))
      && (p.phase.Committing? && committed != id ==> Step(s, CommittedCall(p.token, committed)) == (s, Err(Conflict)))
      && Step(s, FailedCall(p.token, error)) == (s.(pending := s.pending - {id}), Ok(Transition(None, Some(NeedsRetry(id, error)))))
  {
    hide ReceiverOk, Locate;
    Found(s, id, Some(s.pending[id].phase));
    Found(s, id, None);
  }

  // ----- the reducer -----

  class DurableReceiver {
    const member: MemberId
    const incarnation: nat
    var next: u64
    var pending: map<ObjectId, Pending>

    ghost function Abstract(): Receiver
      reads this
    {
      Receiver(member, incarnation, next, pending)
    }

    ghost predicate Valid()
      reads this
    {
      ReceiverOk(Abstract())
    }

    constructor (member: MemberId, incarnation: nat)
      requires incarnation > 0
      ensures Valid() && Abstract() == Receiver(member, incarnation, 1, map[])
    {
      this.member, this.incarnation, next, pending := member, incarnation, 1, map[];
    }

    method NextToken() returns (t: Result<Token, DurableError>)
      modifies `next
      ensures if old(next) == LAST then t == Err(ResourcePressure) && next == old(next)
              else t == Ok(Token(incarnation, old(next))) && next == old(next) + 1
    {
      if next == LAST { return Err(ResourcePressure); }
      next := next + 1;
      return Ok(Token(incarnation, next - 1));
    }

    method Find(token: Token, phase: Option<Phase>) returns (r: Result<ObjectId, DurableError>)
      requires Valid()
      ensures r == if Locate(Abstract(), token, phase).Some? then Ok(Locate(Abstract(), token, phase).value) else Err(Conflict)
    {
      var rows := pending.Keys;
      while rows != {}
        invariant rows <= pending.Keys
        invariant forall id :: id in pending.Keys - rows ==> !Waits(Abstract(), id, token, phase)
      {
        var id :| id in rows;
        if pending[id].token == token && (phase.None? || pending[id].phase == phase.value) {
          assert Waits(Abstract(), id, token, phase);
          return Ok(id);
        }
        rows := rows - {id};
      }
      return Err(Conflict);
    }

    method Start(id: ObjectId) returns (r: Result<Transition, DurableError>)
      requires Valid()
      modifies this
      ensures Valid() && (Abstract(), r) == OnStart(old(Abstract()), id)
    {
      StartSound(Abstract(), id);
      hide ReceiverOk, SpentStay;
      if id in pending { return Ok(QUIET); }
      if |pending| >= MAX_PENDING_RECEIVES { return Err(ResourcePressure); }
      var token := NextToken();
      if token.Err? { return Err(token.error); }
      pending := pending[id := Pending(token.value, Inspecting)];
      return Ok(Transition(Some(Inspect(token.value, id)), None));
    }

    method Inspected(token: Token, committed: Option<ObjectId>) returns (r: Result<Transition, DurableError>)
      requires Valid()
      modifies this
      ensures Valid() && (Abstract(), r) == OnInspected(old(Abstract()), token, committed)
    {
      InspectedSound(Abstract(), token, committed);
      hide ReceiverOk, SpentStay, Spent, Locate;
      var located := Find(token, Some(Inspecting));
      if located.Err? { return Err(located.error); }
      if committed.Some? {
        if committed.value != located.value { return Err(Conflict); }
        pending := pending - {located.value};
        return Ok(Transition(None, Some(Received(located.value))));
      }
      var renewed := NextToken();
      if renewed.Err? { return Err(renewed.error); }
      pending := pending[located.value := Pending(renewed.value, Verifying)];
      return Ok(Transition(Some(Verify(renewed.value, located.value)), None));
    }

    method Verified(token: Token, proof: VerifiedDelivery) returns (r: Result<Transition, DurableError>)
      requires Valid()
      modifies this
      ensures Valid() && (Abstract(), r) == OnVerified(old(Abstract()), token, proof)
    {
      VerifiedSound(Abstract(), token, proof);
      hide ReceiverOk, SpentStay, Spent, Locate;
      var located := Find(token, Some(Verifying));
      if located.Err? { return Err(located.error); }
      if proof.Subject() != located.value || proof.member != member { return Err(Conflict); }
      var renewed := NextToken();
      if renewed.Err? { return Err(renewed.error); }
      pending := pending[located.value := Pending(renewed.value, Committing)];
      return Ok(Transition(Some(Commit(renewed.value, proof)), None));
    }

    method Committed(token: Token, committed: ObjectId) returns (r: Result<Transition, DurableError>)
      requires Valid()
      modifies this
      ensures Valid() && (Abstract(), r) == OnCommitted(old(Abstract()), token, committed)
    {
      CommittedSound(Abstract(), token, committed);
      hide ReceiverOk, SpentStay, Spent, Locate;
      var located := Find(token, Some(Committing));
      if located.Err? { return Err(located.error); }
      if located.value != committed { return Err(Conflict); }
      pending := pending - {located.value};
      return Ok(Transition(None, Some(Received(located.value))));
    }

    method Failed(token: Token, error: DurableError) returns (r: Result<Transition, DurableError>)
      requires Valid()
      modifies this
      ensures Valid() && (Abstract(), r) == OnFailed(old(Abstract()), token, error)
    {
      FailedSound(Abstract(), token, error);
      hide ReceiverOk, SpentStay, Spent, Locate;
      var located := Find(token, None);
      if located.Err? { return Err(located.error); }
      pending := pending - {located.value};
      return Ok(Transition(None, Some(NeedsRetry(located.value, error))));
    }
  }
}
