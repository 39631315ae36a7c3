/** Two endpoints of one session with an adversary between them: it may drop, repeat, reorder, alter and invent datagrams. */
module SessionRuns {
  import opened Types
  import opened Words
  import opened Protocol
  import opened Replays
  import opened Sessions

  datatype Delivery = Delivery(number: u64, payload: Bytes)

  /**
   * One endpoint, every ciphertext it made, every payload its host gave it to send with the number that was spent on it,
   * and everything it handed to its host.
   */
  datatype End = End(state: State, sent: seq<Cipher>, given: seq<Delivery>, delivered: seq<Delivery>)

  datatype Move =
    | ProveSelf(key: nat, roster: Roster, at: nat)
    | SendData(payload: Bytes, roster: Roster, at: nat)
    | Offer(datagram: Datagram, roster: Roster, at: nat)
    | Hangup

  function Made(sent: seq<Cipher>): set<Cipher> { set c | c in sent }

  /** One call at an endpoint; `others` are the ciphertexts that exist besides its own. */
  ghost function Moved(end: End, move: Move, others: set<Cipher>): End {
    match move
    case ProveSelf(key, r, at) =>
      var (s, d) := end.state.Authenticate(key, r, at);
      End(s, if d.Ok? then end.sent + [d.value.cipher] else end.sent, end.given, end.delivered)
    case SendData(payload, r, at) =>
      var (s, d) := end.state.Send(payload, r, at);
      End(s, if d.Ok? then end.sent + [d.value.cipher] else end.sent,
          if d.Ok? then end.given + [Delivery(end.state.next, payload)] else end.given, end.delivered)
    case Offer(datagram, r, at) =>
      var (s, i) := end.state.Receive(datagram, r, at, others + Made(end.sent));
      End(s, end.sent, end.given,
          if i.Ok? && i.value.Received? then end.delivered + [Delivery(datagram.number, i.value.payload)] else end.delivered)
    case Hangup => End(end.state.Close(), end.sent, end.given, end.delivered)
  }

  datatype Pair = Pair(left: End, right: End)

  /** Ciphertexts of other sessions never open here. */
  predicate Foreign(session: nat, c: set<Cipher>) { forall x :: x in c ==> x.session != session }

  ghost function Step(p: Pair, atLeft: bool, move: Move, foreign: set<Cipher>): Pair {
    if atLeft then Pair(Moved(p.left, move, Made(p.right.sent) + foreign), p.right)
    else Pair(p.left, Moved(p.right, move, Made(p.left.sent) + foreign))
  }

  predicate NewEnd(e: End) {
    && e.state.open && e.state.peer.None? && !e.state.sentAuth && e.state.next == 1 && e.state.accepted == {}
    && e.sent == [] && e.given == [] && e.delivered == []
  }

  predicate Initial(p: Pair) {
    NewEnd(p.left) && NewEnd(p.right) && p.left.state.session == p.right.state.session
    && p.left.state.role == p.right.state.role.Opposite()
  }

  ghost predicate Next(p: Pair, p': Pair) {
    exists atLeft, move, foreign :: Foreign(p.left.state.session, foreign) && p' == Step(p, atLeft, move, foreign)
  }

  ghost predicate IsRun(run: seq<Pair>) {
    |run| > 0 && Initial(run[0]) && forall i :: 0 <= i < |run| - 1 ==> Next(run[i], run[i + 1])
  }

  // ----- the invariant -----

  /** Numbers strictly increase from the proof on 0; only the proof is on 0, only data above. */
  predicate SentOk(e: End) {
    && (forall i, j :: 0 <= i < j < |e.sent| ==> e.sent[i].number < e.sent[j].number)
    && (forall i :: 0 <= i < |e.sent| ==>
          && e.sent[i].session == e.state.session && e.sent[i].sender == e.state.role && e.sent[i].number < e.state.next
          && (e.sent[i].number == 0 <==> e.sent[i].clear.Proof?)
          && (e.sent[i].clear.Data? ==> 0 < |e.sent[i].clear.payload| <= MAX_PAYLOAD)
          && !e.sent[i].clear.Junk?)
    && (e.sent == [] <==> !e.state.sentAuth)
    && (|e.sent| > 0 ==> e.sent[0].number == 0)
    && 0 < e.state.next <= MAX_PACKETS
  }

  /** Everything delivered was sent by the peer under that number, once, after both proofs. */
  predicate DeliveredOk(e: End, peer: End) {
    && (forall i :: 0 <= i < |e.delivered| ==>
          && e.delivered[i].number > 0 && e.delivered[i].number in e.state.accepted
          && Cipher(e.state.session, e.state.role.Opposite(), e.delivered[i].number, Data(e.delivered[i].payload)) in peer.sent)
    && (forall i, j :: 0 <= i < j < |e.delivered| ==> e.delivered[i].number != e.delivered[j].number)
    && (e.delivered != [] ==> e.state.sentAuth && 0 in e.state.accepted)
    && (0 in e.state.accepted ==> peer.state.sentAuth)
    && (e.state.peer.Some? ==> 0 in e.state.accepted)
  }

  predicate PairInv(p: Pair) {
    && p.left.state.session == p.right.state.session && p.left.state.role == p.right.state.role.Opposite()
    && SentOk(p.left) && SentOk(p.right) && DeliveredOk(p.left, p.right) && DeliveredOk(p.right, p.left)
  }

  /** One more ciphertext, numbered from the counter it advances, or the proof that comes first. */
  lemma AppendKeeps(e: End, e': End, c: Cipher)
    requires SentOk(e) && e'.sent == e.sent + [c] && e'.state.sentAuth
    requires e'.state.session == e.state.session == c.session && e'.state.role == e.state.role == c.sender
    requires if c.clear.Proof? then e.sent == [] && c.number == 0 && e'.state.next == e.state.next
             else c.clear.Data? && 0 < |c.clear.payload| <= MAX_PAYLOAD && e.sent != [] && c.number == e.state.next < MAX_PACKETS
                  && e'.state.next == e.state.next + 1
    ensures SentOk(e')
  {
    if e.sent != [] { assert e'.sent[0] == e.sent[0]; }
  }

  lemma SendKeeps(e: End, move: Move, others: set<Cipher>)
    requires SentOk(e)
    ensures
      var e' := Moved(e, move, others);
      && SentOk(e') && e.sent <= e'.sent && e'.state.session == e.state.session && e'.state.role == e.state.role
      && (e.state.sentAuth ==> e'.state.sentAuth)
  {
    var e' := Moved(e, move, others);
    if e'.sent != e.sent {
      hide SentOk;
      assert e'.state.sentAuth;
      SentMeans(e);
      AppendKeeps(e, e', e'.sent[|e.sent|]);
    }
  }

  lemma SentMeans(e: End)
    requires SentOk(e)
    ensures e.sent == [] <==> !e.state.sentAuth
    ensures 0 < e.state.next <= MAX_PACKETS
  {
  }

  lemma ReceiveKeeps(e: End, peer: End, move: Move, foreign: set<Cipher>)
    requires SentOk(e) && SentOk(peer) && DeliveredOk(e, peer) && Foreign(e.state.session, foreign)
    requires peer.state.session == e.state.session && peer.state.role == e.state.role.Opposite()
    ensures DeliveredOk(Moved(e, move, Made(peer.sent) + foreign), peer)
  {
    hide SentOk, Fresh;
    if move.Offer? {
      OfferKeeps(e, peer, move, foreign);
    }
  }

  /** An accepted offer is the peer's proof, or one delivery under a number not accepted before. */
  lemma OfferKeeps(e: End, peer: End, move: Move, foreign: set<Cipher>)
    requires SentOk(e) && SentOk(peer) && DeliveredOk(e, peer) && Foreign(e.state.session, foreign) && move.Offer?
    requires peer.state.session == e.state.session && peer.state.role == e.state.role.Opposite()
    ensures DeliveredOk(Moved(e, move, Made(peer.sent) + foreign), peer)
  {
    var made := Made(peer.sent) + foreign + Made(e.sent);
    var d, e' := move.datagram, Moved(e, move, Made(peer.sent) + foreign);
    assert Made(peer.sent) + foreign + Made(e.sent) == made;
    var (s, i) := e.state.Receive(d, move.roster, move.at, made);
    if i.Ok? {
      OpenedWasSent(e, peer, d, foreign);
      SentMeans(peer);
      hide SentOk, Made, State.Opens, State.ProofHolds;
      if i.value.Received? {
        DeliverKeeps(e, e', peer, d.number, i.value.payload);
      } else {
        ProofKeeps(e, e', peer);
      }
    }
  }

  lemma ProofKeeps(e: End, e': End, peer: End)
    requires DeliveredOk(e, peer) && peer.state.sentAuth && e'.delivered == e.delivered
    requires e'.state == e.state.(peer := e'.state.peer, accepted := e.state.accepted + {0})
    ensures DeliveredOk(e', peer)
  {
  }

  lemma DeliverKeeps(e: End, e': End, peer: End, n: u64, payload: Bytes)
    requires DeliveredOk(e, peer) && e.state.IsAuthenticated() && n != 0 && n !in e.state.accepted
    requires e'.state == e.state.(accepted := e.state.accepted + {n}) && e'.delivered == e.delivered + [Delivery(n, payload)]
    requires Cipher(e.state.session, e.state.role.Opposite(), n, Data(payload)) in peer.sent
    ensures DeliveredOk(e', peer)
  {
  }

  /** What opens at an endpoint was made by its peer in this session under that number. */
  lemma OpenedWasSent(e: End, peer: End, d: Datagram, foreign: set<Cipher>)
    requires SentOk(e) && SentOk(peer) && Foreign(e.state.session, foreign)
    requires d.Frame? && e.state.Opens(d, Made(peer.sent) + foreign + Made(e.sent))
    ensures d.cipher in peer.sent && d.cipher == Cipher(e.state.session, e.state.role.Opposite(), d.number, d.cipher.clear)
  {
  }

  /** More sent by the peer takes nothing away. */
  lemma PeerKeeps(e: End, peer: End, peer': End)
    requires DeliveredOk(e, peer) && peer.sent <= peer'.sent && (peer.state.sentAuth ==> peer'.state.sentAuth)
    ensures DeliveredOk(e, peer')
  {
    forall i | 0 <= i < |e.delivered|
      ensures Cipher(e.state.session, e.state.role.Opposite(), e.delivered[i].number, Data(e.delivered[i].payload)) in peer'.sent
    {
      var c := Cipher(e.state.session, e.state.role.Opposite(), e.delivered[i].number, Data(e.delivered[i].payload));
      var j :| 0 <= j < |peer.sent| && peer.sent[j] == c;
      assert peer'.sent[j] == c;
    }
  }

  lemma StepKeeps(p: Pair, atLeft: bool, move: Move, foreign: set<Cipher>)
    requires PairInv(p) && Foreign(p.left.state.session, foreign)
    ensures PairInv(Step(p, atLeft, move, foreign))
  {
    hide SentOk, DeliveredOk, Moved, Foreign;
    var (e, peer) := if atLeft then (p.left, p.right) else (p.right, p.left);
    var others := Made(peer.sent) + foreign;
    SendKeeps(e, move, others);
    ReceiveKeeps(e, peer, move, foreign);
    PeerKeeps(peer, e, Moved(e, move, others));
  }

  lemma {:induction false} RunKeepsInv(run: seq<Pair>)
    requires IsRun(run)
    ensures PairInv(run[|run| - 1])
    decreases |run|
  {
    hide PairInv, Step;
    var last := |run| - 1;
    if last == 0 {
      StartInv(run[0]);
    } else {
      RunKeepsInv(run[..last]);
      assert Next(run[last - 1], run[last]);
      var atLeft, move, foreign :| Foreign(run[last - 1].left.state.session, foreign)
        && run[last] == Step(run[last - 1], atLeft, move, foreign);
      StepKeeps(run[last - 1], atLeft, move, foreign);
    }
  }

  lemma StartInv(p: Pair)
    requires Initial(p)
    ensures PairInv(p)
  {
  }

  // ----- what the hosts gave, and who the peers are -----

  /** Every data ciphertext carries exactly what the host gave under its number, and the proof names this endpoint. */
  predicate GivenOk(e: End) {
    && (forall i :: 0 <= i < |e.sent| && e.sent[i].clear.Data? ==> Delivery(e.sent[i].number, e.sent[i].clear.payload) in e.given)
    && (forall i :: 0 <= i < |e.given| ==> 0 < e.given[i].number < e.state.next)
    && (forall i, j :: 0 <= i < j < |e.given| ==> e.given[i].number < e.given[j].number)
    && (forall i :: 0 <= i < |e.sent| && e.sent[i].clear.Proof? ==> Identifies(e.state, e.sent[i].clear))
  }

  predicate Identifies(s: State, c: Clear) {
    c.Proof? && c.member == s.local && c.body == ProofBody(s.scope, s.session, s.local, s.role)
  }

  /** An accepted peer is the other endpoint, in the same group and epoch, and the one that was expected, if any was. */
  predicate PeerOk(e: End, peer: End) {
    && (e.state.peer.Some? ==>
          && e.state.peer.value == peer.state.local != e.state.local && e.state.scope == peer.state.scope
          && (e.state.expected.Some? ==> e.state.expected.value == peer.state.local))
    && (forall n :: n in e.state.accepted ==> n < peer.state.next)
  }

  predicate HostsInv(p: Pair) {
    GivenOk(p.left) && GivenOk(p.right) && PeerOk(p.left, p.right) && PeerOk(p.right, p.left)
  }

  /** What a call never changes of an endpoint. */
  predicate SameEnd(s: State, s': State) {
    && s'.session == s.session && s'.scope == s.scope && s'.role == s.role && s'.local == s.local && s'.expected == s.expected
    && s.next <= s'.next
  }

  lemma MovedSame(e: End, move: Move, others: set<Cipher>)
    ensures SameEnd(e.state, Moved(e, move, others).state)
  {
    hide Fresh, State.ProofHolds, State.Opens;
  }

  lemma GivenKeeps(e: End, move: Move, others: set<Cipher>)
    requires SentOk(e) && GivenOk(e)
    ensures GivenOk(Moved(e, move, others))
  {
    var e' := Moved(e, move, others);
    SentMeans(e);
    MovedSame(e, move, others);
    hide SentOk, Fresh, State.ProofHolds, State.Opens;
    if e'.sent != e.sent {
      var c := e'.sent[|e.sent|];
      assert e'.sent == e.sent + [c];
      if move.SendData? {
        var d := Delivery(e.state.next, move.payload);
        assert e'.given == e.given + [d] && c.clear == Data(move.payload) && c.number == e.state.next;
        hide Moved;
        OneMoreGiven(e, e', c, d);
      }
    }
  }

  lemma OneMoreGiven(e: End, e': End, c: Cipher, d: Delivery)
    requires GivenOk(e) && SameEnd(e.state, e'.state) && e'.sent == e.sent + [c] && e'.given == e.given + [d]
    requires c.clear == Data(d.payload) && c.number == d.number == e.state.next && 0 < e.state.next < e'.state.next
    ensures GivenOk(e')
  {
    assert d == e'.given[|e.given|];
    forall i | 0 <= i < |e'.sent| && e'.sent[i].clear.Data? ensures Delivery(e'.sent[i].number, e'.sent[i].clear.payload) in e'.given {
      if i < |e.sent| {
        var x := Delivery(e.sent[i].number, e.sent[i].clear.payload);
        assert x in e.given;
      }
    }
  }

  lemma PeerKept(e: End, peer: End, move: Move, foreign: set<Cipher>)
    requires SentOk(e) && SentOk(peer) && GivenOk(peer) && PeerOk(e, peer) && Foreign(e.state.session, foreign)
    requires peer.state.session == e.state.session && peer.state.role == e.state.role.Opposite()
    ensures PeerOk(Moved(e, move, Made(peer.sent) + foreign), peer)
  {
    MovedSame(e, move, Made(peer.sent) + foreign);
    if move.Offer? {
      var made := Made(peer.sent) + foreign + Made(e.sent);
      var (s, i) := e.state.Receive(move.datagram, move.roster, move.at, made);
      if i.Ok? {
        OpenedWasSent(e, peer, move.datagram, foreign);
        var k :| 0 <= k < |peer.sent| && peer.sent[k] == move.datagram.cipher;
        assert peer.sent[k].number < peer.state.next;
      }
    }
    hide SentOk, Made, Fresh;
  }

  /** The other endpoint moves on: who it is stays. */
  lemma OtherMoves(e: End, peer: End, peer': End)
    requires PeerOk(e, peer) && SameEnd(peer.state, peer'.state)
    ensures PeerOk(e, peer')
  {
  }

  lemma HostsKeep(p: Pair, atLeft: bool, move: Move, foreign: set<Cipher>)
    requires PairInv(p) && HostsInv(p) && Foreign(p.left.state.session, foreign)
    ensures HostsInv(Step(p, atLeft, move, foreign))
  {
    hide SentOk, DeliveredOk, GivenOk, PeerOk, Moved, Foreign, SameEnd;
    var (e, peer) := if atLeft then (p.left, p.right) else (p.right, p.left);
    var others := Made(peer.sent) + foreign;
    GivenKeeps(e, move, others);
    PeerKept(e, peer, move, foreign);
    MovedSame(e, move, others);
    OtherMoves(peer, e, Moved(e, move, others));
  }

  lemma {:induction false} RunKeepsHosts(run: seq<Pair>)
    requires IsRun(run)
    ensures PairInv(run[|run| - 1]) && HostsInv(run[|run| - 1])
    decreases |run|
  {
    hide PairInv, HostsInv, Step;
    var last := |run| - 1;
    RunKeepsInv(run);
    if last == 0 {
      StartHosts(run[0]);
    } else {
      RunKeepsHosts(run[..last]);
      assert Next(run[last - 1], run[last]);
      var atLeft, move, foreign :| Foreign(run[last - 1].left.state.session, foreign)
        && run[last] == Step(run[last - 1], atLeft, move, foreign);
      HostsKeep(run[last - 1], atLeft, move, foreign);
    }
  }

  lemma StartHosts(p: Pair)
    requires Initial(p)
    ensures HostsInv(p)
  {
  }

  // ----- the theorems -----

  /** Each payload an endpoint hands to its host is, byte for byte, what the peer's host gave to be sent under that number. */
  lemma DeliveredWasGiven(run: seq<Pair>, atLeft: bool, i: nat)
    requires IsRun(run) && i < |EndAt(run[|run| - 1], atLeft).delivered|
    ensures EndAt(run[|run| - 1], atLeft).delivered[i] in EndAt(run[|run| - 1], !atLeft).given
    ensures
      var given := EndAt(run[|run| - 1], !atLeft).given;
      forall a, b :: 0 <= a < b < |given| ==> given[a].number != given[b].number
  {
    hide Initial, Next, SentOk, PeerOk;
    RunKeepsHosts(run);
    var end, peer := EndAt(run[|run| - 1], atLeft), EndAt(run[|run| - 1], !atLeft);
    assert DeliveredOk(end, peer) && GivenOk(peer);
    var d := end.delivered[i];
    var k :| 0 <= k < |peer.sent| && peer.sent[k] == Cipher(end.state.session, end.state.role.Opposite(), d.number, Data(d.payload));
    assert Delivery(peer.sent[k].number, peer.sent[k].clear.payload) in peer.given;
  }

  /** In every run an endpoint that has a peer has the other endpoint, the one it expected if it expected any, in its own group and epoch. */
  lemma PeerIsTheOther(run: seq<Pair>, atLeft: bool)
    requires IsRun(run) && EndAt(run[|run| - 1], atLeft).state.peer.Some?
    ensures
      var end, other := EndAt(run[|run| - 1], atLeft).state, EndAt(run[|run| - 1], !atLeft).state;
      && end.peer.value == other.local != end.local && end.scope == other.scope && other.sentAuth
      && (end.expected.Some? ==> end.expected.value == other.local)
  {
    hide Initial, Next, SentOk, GivenOk;
    RunKeepsHosts(run);
    var end, other := EndAt(run[|run| - 1], atLeft), EndAt(run[|run| - 1], !atLeft);
    assert PeerOk(end, other) && DeliveredOk(end, other);
  }

  function EndAt(p: Pair, atLeft: bool): End { if atLeft then p.left else p.right }

  /** One endpoint never uses a packet number twice: its numbers strictly increase, the proof on number 0 included. */
  lemma NumbersNeverReused(run: seq<Pair>, atLeft: bool)
    requires IsRun(run)
    ensures
      var sent := EndAt(run[|run| - 1], atLeft).sent;
      && (forall i, j :: 0 <= i < j < |sent| ==> sent[i].number < sent[j].number)
      && (forall i :: 0 <= i < |sent| ==> sent[i].number < MAX_PACKETS && (sent[i].number == 0 <==> sent[i].clear.Proof?))
  {
    hide Initial, Next, DeliveredOk;
    RunKeepsInv(run);
  }

  /** Each delivered payload was sent by the peer, in this session, under that number; and none is delivered twice. */
  lemma DeliveredWasSentOnce(run: seq<Pair>, atLeft: bool)
    requires IsRun(run)
    ensures
      var end, peer := EndAt(run[|run| - 1], atLeft), EndAt(run[|run| - 1], !atLeft);
      && (forall i :: 0 <= i < |end.delivered| ==>
            Cipher(end.state.session, end.state.role.Opposite(), end.delivered[i].number, Data(end.delivered[i].payload)) in peer.sent)
      && (forall i, j :: 0 <= i < j < |end.delivered| ==> end.delivered[i].number != end.delivered[j].number)
  {
    hide Initial, Next, SentOk;
    RunKeepsInv(run);
  }

  /** Nothing is delivered before this endpoint sent its proof and accepted the peer's, which the peer had sent. */
  lemma DeliveredAfterBothProofs(run: seq<Pair>, atLeft: bool)
    requires IsRun(run) && EndAt(run[|run| - 1], atLeft).delivered != []
    ensures
      var end, peer := EndAt(run[|run| - 1], atLeft), EndAt(run[|run| - 1], !atLeft);
      && |end.sent| > 0 && end.sent[0].clear.Proof? && |peer.sent| > 0 && peer.sent[0].clear.Proof? && 0 in end.state.accepted
  {
    hide Initial, Next;
    RunKeepsInv(run);
    var p := run[|run| - 1];
    if atLeft { FirstIsProof(p.left); FirstIsProof(p.right); } else { FirstIsProof(p.right); FirstIsProof(p.left); }
  }

  lemma FirstIsProof(e: End)
    requires SentOk(e) && e.state.sentAuth
    ensures |e.sent| > 0 && e.sent[0].clear.Proof?
  {
  }

  /** A closed endpoint stays closed, sends nothing and delivers nothing, whatever is called. */
  lemma ClosedIsFinal(e: End, move: Move, others: set<Cipher>)
    requires !e.state.open
    ensures
      var e' := Moved(e, move, others);
      !e'.state.open && e'.sent == e.sent && e'.delivered == e.delivered
  {
    hide Fresh;
  }

  /**
   * A genuine data packet is delivered exactly when the session accepts calls, is authenticated,
   * and the number is new and within the window.
   */
  lemma DeliveredExactly(p: Pair, atLeft: bool, d: Datagram, r: Roster, at: nat, foreign: set<Cipher>)
    requires PairInv(p) && Foreign(p.left.state.session, foreign)
    requires d.Frame? && d.cipher in EndAt(p, !atLeft).sent && d.session == d.cipher.session && d.number == d.cipher.number
    requires d.cipher.clear.Data?
    ensures
      var e, e' := EndAt(p, atLeft), EndAt(Step(p, atLeft, Offer(d, r, at), foreign), atLeft);
      e'.delivered == (if e.state.Check(r, at).1.None? && e.state.IsAuthenticated() && Fresh(e.state.accepted, d.number)
                       then e.delivered + [Delivery(d.number, d.cipher.clear.payload)] else e.delivered)
  {
    hide DeliveredOk, Fresh, Foreign;
    SentCipher(EndAt(p, !atLeft), d.cipher);
  }

  lemma SentCipher(e: End, c: Cipher)
    requires SentOk(e) && c in e.sent
    ensures c.session == e.state.session && c.sender == e.state.role && c.number < MAX_PACKETS
    ensures c.clear.Data? ==> c.number > 0 && 0 < |c.clear.payload| <= MAX_PAYLOAD
  {
  }

  // ----- what always works, and what never does -----

  /** The session takes calls: open, begun, authenticated or within its deadline, under the roster it was made for, which is live. */
  predicate Admits(s: State, r: Roster, at: nat) {
    && s.open && s.started <= at && (s.IsAuthenticated() || at < s.deadline)
    && r.digest == s.roster && at <= MAX_LOGICAL_TIME && r.validFrom <= at < r.validUntil
  }

  function RosterOf(move: Move): Roster
    requires !move.Hangup?
  {
    match move
    case ProveSelf(_, r, _) => r
    case SendData(_, r, _) => r
    case Offer(_, r, _) => r
  }

  function TimeOf(move: Move): nat
    requires !move.Hangup?
  {
    match move
    case ProveSelf(_, _, at) => at
    case SendData(_, _, at) => at
    case Offer(_, _, at) => at
  }

  /** A call outside these bounds, under a roster that changed or lapsed for one, sends and delivers nothing and leaves the session closed. */
  lemma RefusedCallCloses(e: End, move: Move, others: set<Cipher>)
    requires !move.Hangup? && !Admits(e.state, RosterOf(move), TimeOf(move))
    ensures
      var e' := Moved(e, move, others);
      !e'.state.open && e'.sent == e.sent && e'.given == e.given && e'.delivered == e.delivered
  {
    hide Fresh, State.ProofHolds, State.Opens;
  }

  lemma CheckPasses(s: State, r: Roster, at: nat)
    ensures s.Check(r, at).1.None? <==> Admits(s, r, at)
    ensures Admits(s, r, at) ==> s.Check(r, at).0 == s
  {
  }

  /** A number above every accepted one is fresh. */
  lemma HigherIsFresh(accepted: set<u64>, n: u64)
    requires forall m :: m in accepted ==> m < n
    ensures Fresh(accepted, n)
  {
  }

  /** The datagram of the last ciphertext an endpoint made. */
  function LastFrame(e: End): Datagram
    requires e.sent != []
  {
    var c := e.sent[|e.sent| - 1];
    Frame(c.session, c.number, c)
  }

  /**
   * Between two authenticated endpoints every payload in bounds gets through: the sender takes it under its next number, and the
   * other side, offered that one datagram, hands exactly this payload to its host, whatever was lost or repeated before.
   */
  lemma GivenArrives(p: Pair, atLeft: bool, payload: Bytes, r: Roster, at: nat, r': Roster, at': nat, foreign: set<Cipher>, foreign': set<Cipher>)
    requires PairInv(p) && HostsInv(p) && Foreign(p.left.state.session, foreign) && Foreign(p.left.state.session, foreign')
    requires EndAt(p, atLeft).state.IsAuthenticated() && Admits(EndAt(p, atLeft).state, r, at)
    requires EndAt(p, !atLeft).state.IsAuthenticated() && Admits(EndAt(p, !atLeft).state, r', at')
    requires 0 < |payload| <= MAX_PAYLOAD && EndAt(p, atLeft).state.next < MAX_PACKETS
    ensures
      var n, q := EndAt(p, atLeft).state.next, Step(p, atLeft, SendData(payload, r, at), foreign);
      && EndAt(q, atLeft).sent != [] && EndAt(q, atLeft).given == EndAt(p, atLeft).given + [Delivery(n, payload)]
      && var q' := Step(q, !atLeft, Offer(LastFrame(EndAt(q, atLeft)), r', at'), foreign');
         EndAt(q', !atLeft).delivered == EndAt(p, !atLeft).delivered + [Delivery(n, payload)]
  {
    var n, q := EndAt(p, atLeft).state.next, Step(p, atLeft, SendData(payload, r, at), foreign);
    var e, f := EndAt(p, atLeft), EndAt(p, !atLeft);
    CheckPasses(e.state, r, at);
    CheckPasses(f.state, r', at');
    assert PeerOk(f, e);
    HigherIsFresh(f.state.accepted, n);
    hide PeerOk, GivenOk, Fresh, SentOk, DeliveredOk, Admits;
    StepKeeps(p, atLeft, SendData(payload, r, at), foreign);
    assert EndAt(q, atLeft).sent == e.sent + [Cipher(e.state.session, e.state.role, n, Data(payload))];
    assert EndAt(q, !atLeft) == f;
    var d := LastFrame(EndAt(q, atLeft));
    assert d.cipher in EndAt(q, atLeft).sent;
    assert q.left.state.session == p.left.state.session;
    DeliveredExactly(q, !atLeft, d, r', at', foreign');
  }

  /** The roster lists the member with this key. */
  predicate Lists(r: Roster, m: MemberId, key: nat) { m in r.members && r.members[m].key == key }

  /**
   * Two new endpoints of one group, each expecting nobody else than the other, that prove themselves with the keys the roster
   * lists and are offered each other's proof, are both authenticated, each with the other as its peer.
   */
  lemma HandshakeCompletes(p: Pair, leftKey: nat, rightKey: nat, r: Roster, at: nat)
    requires Initial(p) && Admits(p.left.state, r, at) && Admits(p.right.state, r, at)
    requires p.left.state.local != p.right.state.local && p.left.state.scope == p.right.state.scope
    requires Lists(r, p.left.state.local, leftKey) && Lists(r, p.right.state.local, rightKey)
    requires p.left.state.expected.Some? ==> p.left.state.expected.value == p.right.state.local
    requires p.right.state.expected.Some? ==> p.right.state.expected.value == p.left.state.local
    ensures
      var q := Step(Step(p, true, ProveSelf(leftKey, r, at), {}), false, ProveSelf(rightKey, r, at), {});
      && q.left.sent != [] && q.right.sent != []
      && var done := Step(Step(q, true, Offer(LastFrame(q.right), r, at), {}), false, Offer(LastFrame(q.left), r, at), {});
         && done.left.state.IsAuthenticated() && done.left.state.peer == Some(p.right.state.local)
         && done.right.state.IsAuthenticated() && done.right.state.peer == Some(p.left.state.local)
  {
    CheckPasses(p.left.state, r, at);
    CheckPasses(p.right.state, r, at);
    var q := Step(Step(p, true, ProveSelf(leftKey, r, at), {}), false, ProveSelf(rightKey, r, at), {});
    ProofSent(p.left, leftKey, r, at, Made(p.right.sent) + {});
    ProofSent(p.right, rightKey, r, at, Made(q.left.sent) + {});
    hide Moved, Admits;
    ProofAccepted(q.left, q.right, rightKey, r, at);
    var half := Step(q, true, Offer(LastFrame(q.right), r, at), {});
    ProofAccepted(q.right, half.left, leftKey, r, at);
  }

  lemma ProofSent(e: End, key: nat, r: Roster, at: nat, others: set<Cipher>)
    requires NewEnd(e) && Admits(e.state, r, at) && Lists(r, e.state.local, key)
    ensures
      Moved(e, ProveSelf(key, r, at), others)
        == e.(state := e.state.(sentAuth := true), sent := [Cipher(e.state.session, e.state.role, 0, e.state.OwnProof(key))])
  {
    CheckPasses(e.state, r, at);
    hide Admits;
  }

  /** An endpoint that has proved itself accepts the other's proof. */
  lemma ProofAccepted(e: End, peer: End, key: nat, r: Roster, at: nat)
    requires e.state.sentAuth && 0 !in e.state.accepted && (forall n :: n !in e.state.accepted) && Admits(e.state, r, at)
    requires peer.sent == [Cipher(e.state.session, e.state.role.Opposite(), 0, peer.state.OwnProof(key))]
    requires peer.state.session == e.state.session && peer.state.scope == e.state.scope && peer.state.role == e.state.role.Opposite()
    requires peer.state.local != e.state.local && Lists(r, peer.state.local, key)
    requires e.state.expected.Some? ==> e.state.expected.value == peer.state.local
    ensures
      var e' := Moved(e, Offer(LastFrame(peer), r, at), Made(peer.sent) + {});
      && e'.state == e.state.(peer := Some(peer.state.local), accepted := {0}) && e'.sent == e.sent && e'.given == e.given
  {
    CheckPasses(e.state, r, at);
    HigherIsFresh(e.state.accepted, 0);
    assert e.state.accepted == {};
    assert LastFrame(peer).cipher in Made(peer.sent);
    hide Admits, Fresh;
  }
}
