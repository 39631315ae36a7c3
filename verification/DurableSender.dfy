/**
 * The durable-send reducer. The host runs its effects and feeds results back under the effect's token;
 * results may be late, repeated or for another phase.
 */
module DurableSends {
  import opened Types
  import opened Words
  import opened Rosters
  import opened Protocol
  import opened Objects

  const MAX_PENDING_SENDS: nat := 8
  const MAX_SEND_BYTES: nat := 48 * 1024

  type OperationId = nat

  datatype SendRequest = SendRequest(operation: OperationId, policy: ObjectPolicy, plaintext: Bytes)

  /** Requests exist only in range, with ascending targets. */
  function NewRequest(operation: OperationId, policy: ObjectPolicy, plaintext: Bytes): Result<SendRequest, DurableError> {
    if || plaintext == [] || |plaintext| > MAX_SEND_BYTES || policy.targets == [] || |policy.targets| > MAX_TARGETS
       || policy.epoch == 0 || policy.epoch > MAX_LOGICAL_TIME || policy.expiresAt == 0 || policy.expiresAt > MAX_LOGICAL_TIME
       || policy.hopLimit == 0 || policy.hopLimit > 16
    then Err(InvalidInput)
    else
      var targets := Sorted(policy.targets);
      if !StrictlyIncreasing(targets) then Err(InvalidInput)
      else Ok(SendRequest(operation, policy.(targets := targets), plaintext))
  }

  /** Ideal digest of what a request asks for. */
  datatype CommandDigest = CommandDigest(origin: MemberId, policy: ObjectPolicy, plaintext: Bytes)

  datatype Token = Token(incarnation: nat, sequence: u64)

  datatype Phase = Reserving | Protecting | Committing

  datatype Event = Accepted(operation: OperationId, subject: ObjectId) | NeedsRetry(operation: OperationId, error: DurableError)

  datatype Effect =
    | Reserve(token: Token, operation: OperationId, digest: CommandDigest, createIfMissing: bool)
    | Protect(token: Token, origin: MemberId, originSequence: nat, request: SendRequest)
    | Commit(token: Token, operation: OperationId, digest: CommandDigest, manifest: Manifest)

  datatype Transition = Transition(effect: Option<Effect>, event: Option<Event>)

  const QUIET: Transition := Transition(None, None)

  datatype Pending = Pending(token: Token, phase: Phase, digest: CommandDigest, policy: ObjectPolicy, request: Option<SendRequest>,
    originSequence: Option<nat>, expected: Option<ObjectId>)

  datatype Sender = Sender(origin: MemberId, incarnation: nat, nextToken: u64, pending: map<OperationId, Pending>)

  const LAST: u64 := 0xFFFF_FFFF_FFFF_FFFF

  predicate Waits(s: Sender, op: OperationId, token: Token, phase: Option<Phase>) {
    op in s.pending && s.pending[op].token == token && (phase.None? || s.pending[op].phase == phase.value)
  }

  /** The operation waiting for this token in this phase. */
  ghost function Locate(s: Sender, token: Token, phase: Option<Phase>): (r: Option<OperationId>)
    ensures r.Some? ==> Waits(s, r.value, token, phase)
    ensures r.None? ==> forall op :: !Waits(s, op, token, phase)
  {
    if exists op :: Waits(s, op, token, phase) then
      var op :| Waits(s, op, token, phase);
      Some(op)
    else None
  }

  // ----- the transitions -----

  function OnStart(s: Sender, request: SendRequest, now: nat): (Sender, Result<Transition, DurableError>) {
    var digest, op := CommandDigest(s.origin, request.policy, request.plaintext), request.operation;
    if now > MAX_LOGICAL_TIME then (s, Err(InvalidInput))
    else if op in s.pending then (s, if s.pending[op].digest == digest then Ok(QUIET) else Err(Conflict))
    else if |s.pending| >= MAX_PENDING_SENDS || s.nextToken == LAST then (s, Err(ResourcePressure))
    else
      var token := Token(s.incarnation, s.nextToken);
      (s.(nextToken := s.nextToken + 1,
          pending := s.pending[op := Pending(token, Reserving, digest, request.policy, Some(request), None, None)]),
       Ok(Transition(Some(Reserve(token, op, digest, now < request.policy.expiresAt)), None)))
  }

  function Drop(s: Sender, op: OperationId, event: Event): (Sender, Result<Transition, DurableError>) {
    (s.(pending := s.pending - {op}), Ok(Transition(None, Some(event))))
  }

  ghost function OnReserved(s: Sender, token: Token, originSequence: nat, committed: Option<ObjectId>, now: nat)
    : (Sender, Result<Transition, DurableError>)
  {
    var located := Locate(s, token, Some(Reserving));
    if located.None? then (s, Err(Conflict))
    else
      var op, p := located.value, s.pending[located.value];
      if originSequence == 0 || originSequence > MAX_LOGICAL_TIME || now > MAX_LOGICAL_TIME then (s, Err(InvalidInput))
      else if committed.Some? then Drop(s, op, Accepted(op, committed.value))
      else if now >= p.policy.expiresAt then Drop(s, op, NeedsRetry(op, Expired))
      else if s.nextToken == LAST then (s, Err(ResourcePressure))
      else
        var next := Token(s.incarnation, s.nextToken);
        var moved := p.(phase := Protecting, token := next, originSequence := Some(originSequence), request := None);
        var s' := s.(nextToken := s.nextToken + 1, pending := s.pending[op := moved]);
        if p.request.None? then (s', Err(Conflict))
        else (s', Ok(Transition(Some(Protect(next, s.origin, originSequence, p.request.value)), None)))
  }

  /** The protected object is for this request: same origin, sequence, namespace, epoch, targets, expiry and hop limit. */
  predicate Matches(m: Manifest, origin: MemberId, sequence: Option<nat>, policy: ObjectPolicy) {
    && m.origin == origin && Some(m.sequence) == sequence && m.namespace == policy.namespace && m.epoch == policy.epoch
    && m.targets == policy.targets && m.expiresAt == policy.expiresAt && m.hopLimit == policy.hopLimit
  }

  /** A request does not depend on the order its targets were given in. */
  lemma RequestIgnoresOrder(operation: OperationId, policy: ObjectPolicy, targets: seq<MemberId>, plaintext: Bytes)
    requires multiset(targets) == multiset(policy.targets)
    ensures NewRequest(operation, policy.(targets := targets), plaintext) == NewRequest(operation, policy, plaintext)
  {
    SortedUnique(Sorted(targets), Sorted(policy.targets));
    assert |targets| == |multiset(targets)| == |policy.targets|;
  }

  /**
   * What is protected for a request is never refused as another one's: every envelope within 64 KiB becomes an object under its policy,
   * and that object matches the request.
   */
  lemma ProtectedForRequest(operation: OperationId, policy: ObjectPolicy, plaintext: Bytes, origin: MemberId, sequence: nat, envelope: Bytes)
    requires NewRequest(operation, policy, plaintext).Ok? && 0 < sequence <= MAX_LOGICAL_TIME
    ensures
      var r := NewRequest(operation, policy, plaintext).value;
      var p := FromOpaque(origin, sequence, r.policy, envelope);
      && (p.Ok? <==> 0 < |envelope| <= MAX_OBJECT_BYTES)
      && (p.Ok? ==> Matches(p.value.manifest, origin, Some(sequence), r.policy))
  {
    var sorted := Sorted(policy.targets);
    SortedStrictly(policy.targets);
    SortedUnique(Sorted(sorted), sorted);
    SortedStrictly(sorted);
    FromOpaqueExact(origin, sequence, NewRequest(operation, policy, plaintext).value.policy, envelope);
  }

  ghost function OnProtected(s: Sender, token: Token, m: Manifest, now: nat): (Sender, Result<Transition, DurableError>) {
    var located := Locate(s, token, Some(Protecting));
    if located.None? then (s, Err(Conflict))
    else
      var op, p := located.value, s.pending[located.value];
      if now > MAX_LOGICAL_TIME then (s, Err(InvalidInput))
      else if !Matches(m, s.origin, p.originSequence, p.policy) then (s, Err(Conflict))
      else if now >= p.policy.expiresAt then Drop(s, op, NeedsRetry(op, Expired))
      else if s.nextToken == LAST then (s, Err(ResourcePressure))
      else
        var next := Token(s.incarnation, s.nextToken);
        (s.(nextToken := s.nextToken + 1,
            pending := s.pending[op := p.(token := next, phase := Committing, expected := Some(m.Id()))]),
         Ok(Transition(Some(Commit(next, op, p.digest, m)), None)))
  }

  ghost function OnCommitted(s: Sender, token: Token, subject: ObjectId): (Sender, Result<Transition, DurableError>) {
    var located := Locate(s, token, Some(Committing));
    if located.None? then (s, Err(Conflict))
    else if s.pending[located.value].expected != Some(subject) then (s, Err(Conflict))
    else Drop(s, located.value, Accepted(located.value, subject))
  }

  ghost function OnFailed(s: Sender, token: Token, error: DurableError): (Sender, Result<Transition, DurableError>) {
    var located := Locate(s, token, None);
    if located.None? then (s, Err(Conflict)) else Drop(s, located.value, NeedsRetry(located.value, error))
  }

  // ----- the invariant -----

  /** A reserving entry holds its request, a later one its sequence, and a committing one the object it may accept. */
  predicate PhaseOk(s: Sender, op: OperationId, p: Pending) {
    match p.phase
    case Reserving =>
      && p.request.Some? && p.request.value.operation == op && p.originSequence.None? && p.expected.None?
      && p.policy == p.request.value.policy && p.digest == CommandDigest(s.origin, p.policy, p.request.value.plaintext)
    case Protecting => p.request.None? && p.originSequence.Some? && p.expected.None?
    case Committing =>
      p.request.None? && p.expected.Some? && Matches(p.expected.value.manifest, s.origin, p.originSequence, p.policy)
  }

  /** Outstanding tokens are distinct, of this incarnation and below the next one. */
  predicate TokensOk(s: Sender) {
    && s.nextToken > 0
    && (forall op :: op in s.pending ==> s.pending[op].token.incarnation == s.incarnation && 0 < s.pending[op].token.sequence < s.nextToken)
    && (forall a, b :: a in s.pending && b in s.pending && s.pending[a].token == s.pending[b].token ==> a == b)
  }

  predicate SenderOk(s: Sender) {
    && TokensOk(s) && |s.pending| <= MAX_PENDING_SENDS
    && forall op :: op in s.pending ==> PhaseOk(s, op, s.pending[op])
  }

  datatype Call =
    | StartCall(request: SendRequest, at: nat)
    | ReservedCall(token: Token, originSequence: nat, committed: Option<ObjectId>, at: nat)
    | ProtectedCall(token: Token, manifest: Manifest, at: nat)
    | CommittedCall(token: Token, subject: ObjectId)
    | FailedCall(token: Token, error: DurableError)

  ghost function Step(s: Sender, c: Call): (Sender, Result<Transition, DurableError>) {
    match c
    case StartCall(request, at) => OnStart(s, request, at)
    case ReservedCall(token, sequence, committed, at) => OnReserved(s, token, sequence, committed, at)
    case ProtectedCall(token, m, at) => OnProtected(s, token, m, at)
    case CommittedCall(token, subject) => OnCommitted(s, token, subject)
    case FailedCall(token, error) => OnFailed(s, token, error)
  }

  function EffectOf(r: Result<Transition, DurableError>): Option<Effect> { if r.Ok? then r.value.effect else None }
  function EventOf(r: Result<Transition, DurableError>): Option<Event> { if r.Ok? then r.value.event else None }

  /** A token that was handed out and is no longer awaited. */
  ghost predicate Spent(s: Sender, t: Token) {
    t.sequence < s.nextToken && forall op :: op in s.pending ==> s.pending[op].token != t
  }

  /** What every call guarantees. `starts` is set for a call that begins an operation. */
  ghost predicate Sound(s: Sender, s': Sender, r: Result<Transition, DurableError>, starts: bool) {
    && SenderOk(s') && (r.Err? ==> s' == s)
    && (EffectOf(r).None? || EventOf(r).None?)
    && |s'.pending| == |s.pending| + (if starts && EffectOf(r).Some? then 1 else 0) - (if EventOf(r).Some? then 1 else 0)
    && (EffectOf(r).Some? ==> EffectOf(r).value.token == Token(s.incarnation, s.nextToken))
    && SpentStay(s, s')
  }

  ghost predicate SpentStay(s: Sender, s': Sender) { forall t :: Spent(s, t) ==> Spent(s', t) }

  lemma StaySound(s: Sender, r: Result<Transition, DurableError>, starts: bool)
    requires SenderOk(s) && EffectOf(r).None? && EventOf(r).None?
    ensures Sound(s, s, r, starts)
  {
    hide SenderOk, Spent;
  }

  function Moved(s: Sender, op: OperationId, p: Pending): Sender
    requires s.nextToken < LAST
  {
    s.(nextToken := s.nextToken + 1, pending := s.pending[op := p])
  }

  lemma MoveTokens(s: Sender, op: OperationId, p: Pending)
    requires TokensOk(s) && s.nextToken < LAST && p.token == Token(s.incarnation, s.nextToken)
    ensures TokensOk(Moved(s, op, p)) && SpentStay(s, Moved(s, op, p))
    ensures op in s.pending ==> Spent(Moved(s, op, p), s.pending[op].token)
  {
  }

  lemma MovePhases(s: Sender, op: OperationId, p: Pending)
    requires s.nextToken < LAST && (forall o :: o in s.pending ==> PhaseOk(s, o, s.pending[o])) && PhaseOk(s, op, p)
    ensures forall o :: o in Moved(s, op, p).pending ==> PhaseOk(Moved(s, op, p), o, Moved(s, op, p).pending[o])
  {
    var s' := Moved(s, op, p);
    forall o | o in s'.pending ensures PhaseOk(s', o, s'.pending[o]) {
      assert PhaseOk(s, o, s'.pending[o]);
    }
  }

  lemma MoveCount(s: Sender, op: OperationId, p: Pending)
    requires s.nextToken < LAST
    ensures |Moved(s, op, p).pending| == |s.pending| + (if op in s.pending then 0 else 1)
  {
    assert Moved(s, op, p).pending.Keys == s.pending.Keys + {op};
    assert |Moved(s, op, p).pending| == |Moved(s, op, p).pending.Keys| && |s.pending| == |s.pending.Keys|;
  }

  /** An operation begins or moves on under a token never used before. */
  lemma MoveSound(s: Sender, op: OperationId, p: Pending, r: Result<Transition, DurableError>, starts: bool)
    requires SenderOk(s) && s.nextToken < LAST && p.token == Token(s.incarnation, s.nextToken) && PhaseOk(s, op, p)
    requires if starts then op !in s.pending && |s.pending| < MAX_PENDING_SENDS else op in s.pending
    requires EffectOf(r).Some? && EventOf(r).None? && EffectOf(r).value.token == p.token
    ensures Sound(s, Moved(s, op, p), r, starts)
  {
    hide TokensOk, PhaseOk, SpentStay, Spent;
    MoveTokens(s, op, p);
    MovePhases(s, op, p);
    MoveCount(s, op, p);
  }

  function Dropped(s: Sender, op: OperationId): Sender { s.(pending := s.pending - {op}) }

  lemma DropTables(s: Sender, op: OperationId)
    requires SenderOk(s) && op in s.pending
    ensures SenderOk(Dropped(s, op)) && |Dropped(s, op).pending| == |s.pending| - 1
    ensures SpentStay(s, Dropped(s, op)) && Spent(Dropped(s, op), s.pending[op].token)
  {
    var s' := Dropped(s, op);
    assert s'.pending.Keys == s.pending.Keys - {op};
    assert |s'.pending| == |s'.pending.Keys| && |s.pending| == |s.pending.Keys|;
    forall o | o in s'.pending ensures PhaseOk(s', o, s'.pending[o]) { assert PhaseOk(s, o, s.pending[o]); }
  }

  /** An operation ends with its one event. */
  lemma DropSound(s: Sender, op: OperationId, event: Event)
    requires SenderOk(s) && op in s.pending
    ensures Sound(s, Drop(s, op, event).0, Drop(s, op, event).1, false)
  {
    hide SenderOk, SpentStay, Spent;
    DropTables(s, op);
  }

  lemma StartSound(s: Sender, request: SendRequest, at: nat)
    requires SenderOk(s)
    ensures var (s', r) := OnStart(s, request, at); Sound(s, s', r, true)
  {
    hide Sound, TokensOk;
    var (s', r) := OnStart(s, request, at);
    if EffectOf(r).Some? {
      var p := s'.pending[request.operation];
      assert s' == Moved(s, request.operation, p);
      MoveSound(s, request.operation, p, r, true);
    } else {
      StaySound(s, r, true);
    }
  }

  lemma EntryOk(s: Sender, op: OperationId)
    requires SenderOk(s) && op in s.pending
    ensures PhaseOk(s, op, s.pending[op])
  {
  }

  lemma ReservedSound(s: Sender, token: Token, sequence: nat, committed: Option<ObjectId>, at: nat)
    requires SenderOk(s)
    ensures var (s', r) := OnReserved(s, token, sequence, committed, at); Sound(s, s', r, false)
  {
    hide Sound, SenderOk, Locate;
    var (s', r) := OnReserved(s, token, sequence, committed, at);
    if Locate(s, token, Some(Reserving)).None? {
      StaySound(s, r, false);
    } else {
      var op := Locate(s, token, Some(Reserving)).value;
      EntryOk(s, op);
      if EffectOf(r).Some? {
        assert s' == Moved(s, op, s'.pending[op]);
        MoveSound(s, op, s'.pending[op], r, false);
      } else if EventOf(r).Some? {
        DropSound(s, op, EventOf(r).value);
      } else {
        StaySound(s, r, false);
      }
    }
  }

  lemma ProtectedSound(s: Sender, token: Token, m: Manifest, at: nat)
    requires SenderOk(s)
    ensures var (s', r) := OnProtected(s, token, m, at); Sound(s, s', r, false)
  {
    hide Sound, SenderOk, Locate;
    var (s', r) := OnProtected(s, token, m, at);
    if Locate(s, token, Some(Protecting)).None? {
      StaySound(s, r, false);
    } else {
      var op := Locate(s, token, Some(Protecting)).value;
      EntryOk(s, op);
      if EffectOf(r).Some? {
        assert s' == Moved(s, op, s'.pending[op]);
        MoveSound(s, op, s'.pending[op], r, false);
      } else if EventOf(r).Some? {
        DropSound(s, op, EventOf(r).value);
      } else {
        StaySound(s, r, false);
      }
    }
  }

  lemma CommittedSound(s: Sender, token: Token, subject: ObjectId)
    requires SenderOk(s)
    ensures var (s', r) := OnCommitted(s, token, subject); Sound(s, s', r, false)
  {
    hide Sound, SenderOk, Locate;
    var (s', r) := OnCommitted(s, token, subject);
    if EventOf(r).Some? { DropSound(s, Locate(s, token, Some(Committing)).value, EventOf(r).value); } else { StaySound(s, r, false); }
  }

  lemma FailedSound(s: Sender, token: Token, error: DurableError)
    requires SenderOk(s)
    ensures var (s', r) := OnFailed(s, token, error); Sound(s, s', r, false)
  {
    hide Sound, SenderOk, Locate;
    var (s', r) := OnFailed(s, token, error);
    if EventOf(r).Some? { DropSound(s, Locate(s, token, None).value, EventOf(r).value); } else { StaySound(s, r, false); }
  }

  /**
   * Every call keeps the invariant; a refused one changes nothing. The count of pending operations goes up exactly for a
   * start with an effect and down exactly for an event, and no call yields both. New effects carry fresh tokens.
   */
  lemma StepSound(s: Sender, c: Call)
    requires SenderOk(s)
    ensures Sound(s, Step(s, c).0, Step(s, c).1, c.StartCall?)
  {
    hide Sound, SenderOk, OnStart, OnReserved, OnProtected, OnCommitted, OnFailed;
    match c {
      case StartCall(request, at) => StartSound(s, request, at);
      case ReservedCall(token, sequence, committed, at) => ReservedSound(s, token, sequence, committed, at);
      case ProtectedCall(token, m, at) => ProtectedSound(s, token, m, at);
      case CommittedCall(token, subject) => CommittedSound(s, token, subject);
      case FailedCall(token, error) => FailedSound(s, token, error);
    }
  }

  // ----- every run -----

  datatype Trace = Trace(state: Sender, starts: nat, events: seq<Event>, effects: seq<Effect>)

  ghost function Run(start: Sender, calls: seq<Call>): Trace {
    if calls == [] then Trace(start, 0, [], [])
    else
      var t := Run(start, calls[..|calls| - 1]);
      var c := calls[|calls| - 1];
      var (s, r) := Step(t.state, c);
      Trace(s, if c.StartCall? && EffectOf(r).Some? then t.starts + 1 else t.starts,
            if EventOf(r).Some? then t.events + [EventOf(r).value] else t.events,
            if EffectOf(r).Some? then t.effects + [EffectOf(r).value] else t.effects)
  }

  /** A reducer as it is created; incarnation zero is refused. */
  function NewSender(origin: MemberId, incarnation: nat): Result<Sender, DurableError> {
    if incarnation == 0 then Err(InvalidInput) else Ok(Sender(origin, incarnation, 1, map[]))
  }

  predicate EffectsOk(t: Trace) {
    && (forall i :: 0 <= i < |t.effects| ==>
          t.effects[i].token.incarnation == t.state.incarnation && t.effects[i].token.sequence < t.state.nextToken)
    && (forall i, j :: 0 <= i < j < |t.effects| ==> t.effects[i].token.sequence < t.effects[j].token.sequence)
  }

  /**
   * Over any calls: every operation that started has ended with exactly one event or is pending, at most eight are,
   * and no two effects ever carry the same token.
   */
  lemma {:induction false} RunConserves(start: Sender, calls: seq<Call>)
    requires SenderOk(start) && start.pending == map[]
    ensures
      var t := Run(start, calls);
      && SenderOk(t.state) && t.starts == |t.events| + |t.state.pending| && |t.state.pending| <= MAX_PENDING_SENDS && EffectsOk(t)
  {
    hide SenderOk, Step;
    if calls != [] {
      var init, c := calls[..|calls| - 1], calls[|calls| - 1];
      RunConserves(start, init);
      var t := Run(start, init);
      StepSound(t.state, c);
      StepTokens(t.state, c);
      PendingBound(Step(t.state, c).0);
      hide SpentStay;
    } else {
      PendingBound(start);
    }
  }

  lemma PendingBound(s: Sender)
    requires SenderOk(s)
    ensures |s.pending| <= MAX_PENDING_SENDS
  {
  }

  lemma StepTokens(s: Sender, c: Call)
    ensures
      var (s', r) := Step(s, c);
      s'.incarnation == s.incarnation && s'.nextToken == if EffectOf(r).Some? || s'.nextToken != s.nextToken then s.nextToken + 1 else s.nextToken
  {
    hide Locate;
  }

  // ----- late, repeated and misplaced results -----

  function CallToken(c: Call): Option<Token> {
    match c
    case StartCall(_, _) => None
    case ReservedCall(token, _, _, _) => Some(token)
    case ProtectedCall(token, _, _) => Some(token)
    case CommittedCall(token, _) => Some(token)
    case FailedCall(token, _) => Some(token)
  }

  function CallPhase(c: Call): Option<Phase> {
    match c
    case ReservedCall(_, _, _, _) => Some(Reserving)
    case ProtectedCall(_, _, _) => Some(Protecting)
    case CommittedCall(_, _) => Some(Committing)
    case _ => None
  }

  /** A result nobody waits for, in its phase, is refused and changes nothing. */
  lemma UnawaitedRefused(s: Sender, c: Call)
    requires CallToken(c).Some? && forall op :: !Waits(s, op, CallToken(c).value, CallPhase(c))
    ensures Step(s, c) == (s, Err(Conflict))
  {
    assert Locate(s, CallToken(c).value, CallPhase(c)).None?;
    hide Locate, Waits;
    match c {
      case ReservedCall(_, _, _, _) =>
      case ProtectedCall(_, _, _) =>
      case CommittedCall(_, _) =>
      case FailedCall(_, _) =>
    }
  }

  /** A result that is taken spends its token. */
  lemma TakenSpends(s: Sender, c: Call)
    requires SenderOk(s) && CallToken(c).Some? && Step(s, c).1.Ok?
    ensures Spent(Step(s, c).0, CallToken(c).value)
  {
    hide SenderOk, Spent;
    var located := Locate(s, CallToken(c).value, CallPhase(c));
    var op := located.value;
    EntryOk(s, op);
    var s' := Step(s, c).0;
    DropTables(s, op);
    if EffectOf(Step(s, c).1).Some? {
      TokensOf(s);
      hide Locate;
      assert s' == Moved(s, op, s'.pending[op]);
      MoveTokens(s, op, s'.pending[op]);
    }
  }

  lemma TokensOf(s: Sender)
    requires SenderOk(s)
    ensures TokensOk(s)
  {
  }

  /** A spent token stays refused for ever: no result is taken twice. */
  lemma {:induction false} SpentForever(s: Sender, calls: seq<Call>, t: Token, c: Call)
    requires SenderOk(s) && Spent(s, t) && CallToken(c) == Some(t)
    ensures Spent(Run(s, calls).state, t) && Step(Run(s, calls).state, c) == (Run(s, calls).state, Err(Conflict))
  {
    hide SenderOk, Step;
    if calls != [] {
      var init := calls[..|calls| - 1];
      SpentForever(s, init, t, c);
      RunKeeps(s, init);
      StepSound(Run(s, init).state, calls[|calls| - 1]);
    }
    UnawaitedRefused(Run(s, calls).state, c);
  }

  lemma {:induction false} RunKeeps(s: Sender, calls: seq<Call>)
    requires SenderOk(s)
    ensures SenderOk(Run(s, calls).state)
  {
    hide SenderOk, Step, SpentStay;
    if calls != [] {
      RunKeeps(s, calls[..|calls| - 1]);
      StepSound(Run(s, calls[..|calls| - 1]).state, calls[|calls| - 1]);
    }
  }

  /** After a commit the accepted object is the one protected for this very request. */
  lemma AcceptedMatches(s: Sender, token: Token, subject: ObjectId)
    requires SenderOk(s) && EventOf(OnCommitted(s, token, subject).1).Some?
    ensures
      var e := EventOf(OnCommitted(s, token, subject).1).value;
      && e == Accepted(e.operation, subject) && e.operation in s.pending && s.pending[e.operation].token == token
      && Matches(subject.manifest, s.origin, s.pending[e.operation].originSequence, s.pending[e.operation].policy)
  {
    hide SenderOk;
    EntryOk(s, Locate(s, token, Some(Committing)).value);
  }

  /** The entry goes back to this call: it started the operation, with this policy and these contents. */
  predicate Starts(c: Call, origin: MemberId, op: OperationId, p: Pending) {
    && c.StartCall? && c.request.operation == op && p.policy == c.request.policy
    && p.digest == CommandDigest(origin, c.request.policy, c.request.plaintext) && (p.request.Some? ==> p.request.value == c.request)
  }

  ghost predicate Started(calls: seq<Call>, origin: MemberId, op: OperationId, p: Pending) {
    exists j :: 0 <= j < |calls| && Starts(calls[j], origin, op, p)
  }

  /** The entry keeps what it was started with; the request is held until it is handed out. */
  predicate Descends(p: Pending, q: Pending) {
    q.policy == p.policy && q.digest == p.digest && (q.request.Some? ==> q.request == p.request)
  }

  /** A call keeps what an entry was started with; only a start makes a new one. */
  lemma StepEntries(s: Sender, c: Call, op: OperationId)
    requires op in Step(s, c).0.pending
    ensures Step(s, c).0.origin == s.origin
    ensures
      var p := Step(s, c).0.pending[op];
      Starts(c, s.origin, op, p) || (op in s.pending && Descends(s.pending[op], p))
  {
    hide Locate, Matches;
  }

  lemma StepOrigin(s: Sender, c: Call)
    ensures Step(s, c).0.origin == s.origin
  {
    hide Locate, Matches;
  }

  lemma {:induction false} EntriesStarted(start: Sender, calls: seq<Call>, op: OperationId)
    requires start.pending == map[]
    ensures Run(start, calls).state.origin == start.origin
    ensures op in Run(start, calls).state.pending ==> Started(calls, start.origin, op, Run(start, calls).state.pending[op])
  {
    hide Step, Starts;
    if calls != [] {
      var init, c := calls[..|calls| - 1], calls[|calls| - 1];
      var s := Run(start, init).state;
      EntriesStarted(start, init, op);
      StepOrigin(s, c);
      if op in Step(s, c).0.pending {
        StepEntries(s, c, op);
        var p := Step(s, c).0.pending[op];
        if Starts(c, s.origin, op, p) {
          assert Starts(calls[|calls| - 1], start.origin, op, p);
        } else {
          var j :| 0 <= j < |init| && Starts(init[j], start.origin, op, s.pending[op]);
          SameStart(init[j], start.origin, op, s.pending[op], p);
          assert Starts(calls[j], start.origin, op, p);
        }
      }
    }
  }

  lemma SameStart(c: Call, origin: MemberId, op: OperationId, p: Pending, q: Pending)
    requires Starts(c, origin, op, p) && Descends(p, q)
    ensures Starts(c, origin, op, q)
  {
  }

  /** Over any calls: an object accepted after a commit matches the policy of a request that started its operation earlier. */
  lemma AcceptedWasRequested(start: Sender, calls: seq<Call>, token: Token, subject: ObjectId)
    requires SenderOk(start) && start.pending == map[]
    requires EventOf(Step(Run(start, calls).state, CommittedCall(token, subject)).1).Some?
    ensures
      var e := EventOf(Step(Run(start, calls).state, CommittedCall(token, subject)).1).value;
      && e == Accepted(e.operation, subject)
      && exists j, sequence :: 0 <= j < |calls| && calls[j].StartCall? && calls[j].request.operation == e.operation
                               && Matches(subject.manifest, start.origin, sequence, calls[j].request.policy)
  {
    var s := Run(start, calls).state;
    RunKeeps(start, calls);
    AcceptedMatches(s, token, subject);
    hide SenderOk, Matches;
    var op := EventOf(OnCommitted(s, token, subject).1).value.operation;
    EntriesStarted(start, calls, op);
    hide Run, OnCommitted;
    var j :| 0 <= j < |calls| && Starts(calls[j], start.origin, op, s.pending[op]);
    assert Matches(subject.manifest, start.origin, s.pending[op].originSequence, calls[j].request.policy);
  }

  // ----- what the host is asked to do -----

  /** The effect goes back to this call: it reserves for, protects or commits what that call asked to send. */
  predicate AsksFor(c: Call, origin: MemberId, e: Effect) {
    && c.StartCall?
    && match e
       case Reserve(_, op, digest, create) =>
         && op == c.request.operation && digest == CommandDigest(origin, c.request.policy, c.request.plaintext)
         && (create <==> c.at < c.request.policy.expiresAt)
       case Protect(_, source, sequence, request) => source == origin && request == c.request && 0 < sequence <= MAX_LOGICAL_TIME
       case Commit(_, op, digest, m) =>
         && op == c.request.operation && digest == CommandDigest(origin, c.request.policy, c.request.plaintext)
         && Matches(m, origin, Some(m.sequence), c.request.policy)
  }

  ghost predicate Asked(calls: seq<Call>, origin: MemberId, e: Effect) { exists j :: 0 <= j < |calls| && AsksFor(calls[j], origin, e) }

  lemma StepAsks(s: Sender, c: Call, calls: seq<Call>)
    requires SenderOk(s) && EffectOf(Step(s, c).1).Some?
    requires forall op :: op in s.pending ==> Started(calls, s.origin, op, s.pending[op])
    ensures AsksFor(c, s.origin, EffectOf(Step(s, c).1).value) || Asked(calls, s.origin, EffectOf(Step(s, c).1).value)
  {
    hide SenderOk, Matches;
    var e := EffectOf(Step(s, c).1).value;
    if !c.StartCall? {
      var op := Locate(s, CallToken(c).value, CallPhase(c)).value;
      EntryOk(s, op);
      var j :| 0 <= j < |calls| && Starts(calls[j], s.origin, op, s.pending[op]);
      if c.ProtectedCall? { MatchesOwn(c.manifest, s.origin, s.pending[op].originSequence, s.pending[op].policy); }
      assert AsksFor(calls[j], s.origin, e);
    }
  }

  lemma MatchesOwn(m: Manifest, origin: MemberId, sequence: Option<nat>, policy: ObjectPolicy)
    ensures Matches(m, origin, sequence, policy) ==> Matches(m, origin, Some(m.sequence), policy)
  {
  }

  /** Over any calls: everything the host is ever asked to reserve, protect or commit is what some call asked to send, unaltered. */
  lemma {:induction false} EffectsRequested(start: Sender, calls: seq<Call>)
    requires SenderOk(start) && start.pending == map[]
    ensures forall i :: 0 <= i < |Run(start, calls).effects| ==> Asked(calls, start.origin, Run(start, calls).effects[i])
  {
    hide SenderOk, Step, AsksFor;
    if calls != [] {
      var init, c := calls[..|calls| - 1], calls[|calls| - 1];
      var t := Run(start, init);
      EffectsRequested(start, init);
      RunKeeps(start, init);
      forall op | op in t.state.pending ensures Started(init, start.origin, op, t.state.pending[op]) { EntriesStarted(start, init, op); }
      EntriesOrigin(start, init);
      if EffectOf(Step(t.state, c).1).Some? { StepAsks(t.state, c, init); }
      forall i | 0 <= i < |Run(start, calls).effects| ensures Asked(calls, start.origin, Run(start, calls).effects[i]) {
        var e := Run(start, calls).effects[i];
        if i < |t.effects| || !AsksFor(c, start.origin, e) {
          var j :| 0 <= j < |init| && AsksFor(init[j], start.origin, e);
          assert AsksFor(calls[j], start.origin, e);
        } else {
          assert AsksFor(calls[|calls| - 1], start.origin, e);
        }
      }
    }
  }

  lemma {:induction false} EntriesOrigin(start: Sender, calls: seq<Call>)
    ensures Run(start, calls).state.origin == start.origin
  {
    hide Step;
    if calls != [] {
      EntriesOrigin(start, calls[..|calls| - 1]);
      StepOrigin(Run(start, calls[..|calls| - 1]).state, calls[|calls| - 1]);
    }
  }

  /** The one operation that waits for a token is found. */
  lemma Found(s: Sender, op: OperationId, phase: Option<Phase>)
    requires SenderOk(s) && op in s.pending && (phase.None? || s.pending[op].phase == phase.value)
    ensures Locate(s, s.pending[op].token, phase) == Some(op)
  {
    assert Waits(s, op, s.pending[op].token, phase);
  }

  function Fresh(s: Sender, k: nat): Token
    requires s.nextToken as nat + k <= LAST as nat
  {
    Token(s.incarnation, (s.nextToken as nat + k) as u64)
  }

  /**
   * A host that does as it is asked gets its message accepted, whatever else is pending: reserve under the command's digest, protect
   * this request under the sequence reserved, commit what was protected; and afterwards nothing of the operation is left.
   */
  lemma SendCompletes(s: Sender, request: SendRequest, sequence: nat, m: Manifest, at: nat)
    requires SenderOk(s) && request.operation !in s.pending && |s.pending| < MAX_PENDING_SENDS && s.nextToken as nat + 3 <= LAST as nat
    requires at < request.policy.expiresAt && at <= MAX_LOGICAL_TIME && 0 < sequence <= MAX_LOGICAL_TIME
    requires Matches(m, s.origin, Some(sequence), request.policy)
    ensures
      var op, digest := request.operation, CommandDigest(s.origin, request.policy, request.plaintext);
      var (s1, r1) := Step(s, StartCall(request, at));
      var (s2, r2) := Step(s1, ReservedCall(Fresh(s, 0), sequence, None, at));
      var (s3, r3) := Step(s2, ProtectedCall(Fresh(s, 1), m, at));
      var (s4, r4) := Step(s3, CommittedCall(Fresh(s, 2), m.Id()));
      && r1 == Ok(Transition(Some(Reserve(Fresh(s, 0), op, digest, true)), None))
      && r2 == Ok(Transition(Some(Protect(Fresh(s, 1), s.origin, sequence, request)), None))
      && r3 == Ok(Transition(Some(Commit(Fresh(s, 2), op, digest, m)), None))
      && r4 == Ok(Transition(None, Some(Accepted(op, m.Id())))) && s4.pending == s.pending
  {
    hide SenderOk, Matches, Locate;
    var op := request.operation;
    var s1 := Step(s, StartCall(request, at)).0;
    StepSound(s, StartCall(request, at));
    Found(s1, op, Some(Reserving));
    var s2 := Step(s1, ReservedCall(Fresh(s, 0), sequence, None, at)).0;
    StepSound(s1, ReservedCall(Fresh(s, 0), sequence, None, at));
    Found(s2, op, Some(Protecting));
    var s3 := Step(s2, ProtectedCall(Fresh(s, 1), m, at)).0;
    StepSound(s2, ProtectedCall(Fresh(s, 1), m, at));
    Found(s3, op, Some(Committing));
    assert s3.pending - {op} == s.pending;
  }

  /** A pending operation started again is quiet for the same policy and text and a conflict for any other; a ninth one is pressure. */
  lemma StartAgain(s: Sender, first: SendRequest, second: SendRequest, at: nat, later: nat)
    requires SenderOk(s) && at <= MAX_LOGICAL_TIME && later <= MAX_LOGICAL_TIME && first.operation !in s.pending && s.nextToken < LAST
    ensures |s.pending| == MAX_PENDING_SENDS ==> Step(s, StartCall(first, at)) == (s, Err(ResourcePressure))
    ensures |s.pending| < MAX_PENDING_SENDS && second.operation == first.operation ==>
      var s' := Step(s, StartCall(first, at)).0;
      Step(s', StartCall(second, later)) ==
        (s', if second.policy == first.policy && second.plaintext == first.plaintext then Ok(QUIET) else Err(Conflict))
  {
    hide SenderOk;
  }

  /** An object committed before ends the operation at once; one whose time is over, or that failed, ends with a retry. */
  lemma SendEnds(s: Sender, op: OperationId, sequence: nat, subject: ObjectId, m: Manifest, at: nat, error: DurableError)
    requires SenderOk(s) && op in s.pending && at <= MAX_LOGICAL_TIME && 0 < sequence <= MAX_LOGICAL_TIME
    ensures
      var p := s.pending[op];
      && (p.phase.Reserving? ==>
            EventOf(Step(s, ReservedCall(p.token, sequence, Some(subject), at)).1) == Some(Accepted(op, subject)))
      && (p.phase.Reserving? && at >= p.policy.expiresAt ==>
            EventOf(Step(s, ReservedCall(p.token, sequence, None, at)).1) == Some(NeedsRetry(op, Expired)))
      && (p.phase.Protecting? && at >= p.policy.expiresAt && Matches(m, s.origin, p.originSequence, p.policy) ==>
            EventOf(Step(s, ProtectedCall(p.token, m, at)).1) == Some(NeedsRetry(op, Expired)))
      && (p.phase.Protecting? && !Matches(m, s.origin, p.originSequence, p.policy) ==>
            Step(s, ProtectedCall(p.token, m, at)) == (s, Err(Conflict)))
      && (p.phase.Committing? && p.expected != Some(subject) ==> Step(s, CommittedCall(p.token, subject)) == (s, Err(Conflict)))
      && Step(s, FailedCall(p.token, error)) == (s.(pending := s.pending - {op}), Ok(Transition(None, Some(NeedsRetry(op, error)))))
  {
    hide SenderOk, Matches, Locate;
    Found(s, op, Some(s.pending[op].phase));
    Found(s, op, None);
  }

  // ----- the reducer -----

  class DurableSender {
    const origin: MemberId
    const incarnation: nat
    var nextToken: u64
    var pending: map<OperationId, Pending>

    ghost function Abstract(): Sender
      reads this
    {
      Sender(origin, incarnation, nextToken, pending)
    }

    ghost predicate Valid()
      reads this
    {
      SenderOk(Abstract())
    }

    constructor (origin: MemberId, incarnation: nat)
      requires incarnation > 0
      ensures Valid() && NewSender(origin, incarnation) == Ok(Abstract())
    {
      this.origin, this.incarnation, nextToken, pending := origin, incarnation, 1, map[];
    }

    method NextToken() returns (t: Result<Token, DurableError>)
      modifies `nextToken
      ensures if old(nextToken) == LAST then t == Err(ResourcePressure) && nextToken == old(nextToken)
              else t == Ok(Token(incarnation, old(nextToken))) && nextToken == old(nextToken) + 1
    {
      if nextToken == LAST { return Err(ResourcePressure); }
      nextToken := nextToken + 1;
      return Ok(Token(incarnation, nextToken - 1));
    }

    /** Scans the pending operations for the one that waits for this token. */
    method Find(token: Token, phase: Option<Phase>) returns (r: Result<OperationId, DurableError>)
      requires Valid()
      ensures r == if Locate(Abstract(), token, phase).Some? then Ok(Locate(Abstract(), token, phase).value) else Err(Conflict)
    {
      hide PhaseOk;
      var rows := pending.Keys;
      while rows != {}
        invariant rows <= pending.Keys
        invariant forall op :: op in pending.Keys - rows ==> !Waits(Abstract(), op, token, phase)
      {
        var op :| op in rows;
        if pending[op].token == token && (phase.None? || pending[op].phase == phase.value) {
          assert Waits(Abstract(), op, token, phase);
          return Ok(op);
        }
        rows := rows - {op};
      }
      return Err(Conflict);
    }

    method Start(request: SendRequest, now: nat) returns (r: Result<Transition, DurableError>)
      requires Valid()
      modifies this
      ensures Valid() && (Abstract(), r) == OnStart(old(Abstract()), request, now)
    {
      hide SenderOk;
      StartSound(Abstract(), request, now);
      if now > MAX_LOGICAL_TIME { return Err(InvalidInput); }
      var digest, op := CommandDigest(origin, request.policy, request.plaintext), request.operation;
      if op in pending {
        if pending[op].digest == digest { return Ok(QUIET); }
        return Err(Conflict);
      }
      if |pending| >= MAX_PENDING_SENDS { return Err(ResourcePressure); }
      var createIfMissing := now < request.policy.expiresAt;
      var token := NextToken();
      if token.Err? { return Err(token.error); }
      pending := pending[op := Pending(token.value, Reserving, digest, request.policy, Some(request), None, None)];
      return Ok(Transition(Some(Reserve(token.value, op, digest, createIfMissing)), None));
    }

    method Reserved(token: Token, originSequence: nat, committed: Option<ObjectId>, now: nat) returns (r: Result<Transition, DurableError>)
      requires Valid()
      modifies this
      ensures Valid() && (Abstract(), r) == OnReserved(old(Abstract()), token, originSequence, committed, now)
    {
      hide SenderOk, Locate, Sound;
      SoundReserved(Abstract(), token, originSequence, committed, now);
      var located := Find(token, Some(Reserving));
      if located.Err? { return Err(located.error); }
      var op := located.value;
      if originSequence == 0 || originSequence > MAX_LOGICAL_TIME || now > MAX_LOGICAL_TIME { return Err(InvalidInput); }
      if committed.Some? {
        pending := pending - {op};
        return Ok(Transition(None, Some(Accepted(op, committed.value))));
      }
      var entry := pending[op];
      if now >= entry.policy.expiresAt {
        pending := pending - {op};
        return Ok(Transition(None, Some(NeedsRetry(op, Expired))));
      }
      var next := NextToken();
      if next.Err? { return Err(next.error); }
      pending := pending[op := entry.(phase := Protecting, token := next.value, originSequence := Some(originSequence), request := None)];
      if entry.request.None? { return Err(Conflict); }
      return Ok(Transition(Some(Protect(next.value, origin, originSequence, entry.request.value)), None));
    }

    method Protected(token: Token, m: Manifest, now: nat) returns (r: Result<Transition, DurableError>)
      requires Valid()
      modifies this
      ensures Valid() && (Abstract(), r) == OnProtected(old(Abstract()), token, m, now)
    {
      hide SenderOk, Locate, Sound, Matches;
      SoundProtected(Abstract(), token, m, now);
      var located := Find(token, Some(Protecting));
      if located.Err? { return Err(located.error); }
      var op := located.value;
      var entry := pending[op];
      if now > MAX_LOGICAL_TIME { return Err(InvalidInput); }
      if !Matches(m, origin, entry.originSequence, entry.policy) { return Err(Conflict); }
      if now >= entry.policy.expiresAt {
        pending := pending - {op};
        return Ok(Transition(None, Some(NeedsRetry(op, Expired))));
      }
      var next := NextToken();
      if next.Err? { return Err(next.error); }
      pending := pending[op := entry.(token := next.value, phase := Committing, expected := Some(m.Id()))];
      return Ok(Transition(Some(Commit(next.value, op, entry.digest, m)), None));
    }

    method Committed(token: Token, subject: ObjectId) returns (r: Result<Transition, DurableError>)
      requires Valid()
      modifies this
      ensures Valid() && (Abstract(), r) == OnCommitted(old(Abstract()), token, subject)
    {
      hide SenderOk, Locate;
      CommittedSound(Abstract(), token, subject);
      var located := Find(token, Some(Committing));
      if located.Err? { return Err(located.error); }
      if pending[located.value].expected != Some(subject) { return Err(Conflict); }
      pending := pending - {located.value};
      return Ok(Transition(None, Some(Accepted(located.value, subject))));
    }

    method Failed(token: Token, error: DurableError) returns (r: Result<Transition, DurableError>)
      requires Valid()
      modifies this
      ensures Valid() && (Abstract(), r) == OnFailed(old(Abstract()), token, error)
    {
      hide SenderOk, Locate;
      FailedSound(Abstract(), token, error);
      var located := Find(token, None);
      if located.Err? { return Err(located.error); }
      pending := pending - {located.value};
      return Ok(Transition(None, Some(NeedsRetry(located.value, error))));
    }
  }

  lemma SoundReserved(s: Sender, token: Token, sequence: nat, committed: Option<ObjectId>, at: nat)
    requires SenderOk(s)
    ensures SenderOk(OnReserved(s, token, sequence, committed, at).0)
  {
    ReservedSound(s, token, sequence, committed, at);
    hide SenderOk, OnReserved;
  }

  lemma SoundProtected(s: Sender, token: Token, m: Manifest, at: nat)
    requires SenderOk(s)
    ensures SenderOk(OnProtected(s, token, m, at).0)
  {
    ProtectedSound(s, token, m, at);
    hide SenderOk, OnProtected;
  }
}
