/**
 * The schemas of the repository as nested CBOR values, and the encodings as the canonical bytes of those values: an array is its
 * head and then its elements, as section 3 of RFC 8949 has it. Each codec writes its fields in the order of its schema.
 */
module Schemas {
  import opened Types
  import opened Words
  import opened Cbor
  import EventLogs
  import HandoffCodec
  import HeaderCodec
  import HostEnvelopes
  import ManifestCodec
  import PolicyCodec
  import SnapshotCodec

  datatype Value = Natural(n: u64) | Octets(b: Small) | Letters(b: Small) | List(of: seq<Value>)

  function Count(vs: seq<Value>): u64 { if |vs| < 0x1_0000_0000 then |vs| else 0 }

  /** The canonical bytes of a value. */
  function Coded(v: Value): Bytes {
    match v
    case Natural(n) => Head(0, n)
    case Octets(b) => Head(2, |b|) + b
    case Letters(b) => Head(3, |b|) + b
    case List(of) => Head(4, Count(of)) + CodedAll(of)
  }

  function CodedAll(vs: seq<Value>): Bytes { if vs == [] then [] else Coded(vs[0]) + CodedAll(vs[1..]) }

  /** The form of the shortest head for a number: its low five bits, and how many bytes follow. */
  function Form(n: u64): (nat, nat) {
    if n < 24 then (n, 0) else if n < 0x100 then (24, 1) else if n < 0x1_0000 then (25, 2)
    else if n < 0x1_0000_0000 then (26, 4) else (27, 8)
  }

  /** A head is the major type over the form in one byte, and then the number in that many bytes, the highest first. */
  lemma HeadBytes(major: nat, n: u64)
    requires major < 8
    ensures
      var h, (low, more) := Head(major, n), Form(n);
      |h| == 1 + more && h[0] as nat == 32 * major + low && (more > 0 ==> FromBytes(h[1..]) == n)
  {
    if n >= 24 {
      var w := Width(n);
      assert Head(major, n)[1..] == BigEndian(n, w);
      Pow256Up(w);
      BigEndianParses(n, w);
    }
  }

  /** The first byte of a number weighs most. */
  lemma {:induction false} HighestFirst(x: byte, s: Bytes)
    ensures FromBytes([x] + s) == x as nat * Pow256(|s|) + FromBytes(s)
  {
    if s == [] {
      assert [x] + s == [x] && [x][..0] == [];
    } else {
      var init := s[..|s| - 1];
      HighestFirst(x, init);
      assert ([x] + s)[..|s|] == [x] + init;
      assert x as nat * Pow256(|s|) == x as nat * Pow256(|s| - 1) * 256;
    }
  }

  // ----- values as items -----

  /** The items of a value: an array is its head followed by its elements. */
  function Flat(v: Value): seq<Item>
  {
    match v
    case Natural(n) => [Uint(n)]
    case Octets(b) => [Blob(b)]
    case Letters(b) => [Text(b)]
    case List(of) => [Array(Count(of))] + FlatAll(of)
  }

  function FlatAll(vs: seq<Value>): seq<Item> { if vs == [] then [] else Flat(vs[0]) + FlatAll(vs[1..]) }

  lemma PrintOne(i: Item)
    ensures Print([i]) == PrintItem(i)
  {
    assert Print([i][1..]) == [];
  }

  /** Printing the items of a value gives its canonical bytes. */
  lemma {:induction false} FlatPrints(v: Value)
    ensures Print(Flat(v)) == Coded(v)
    decreases v, 0
  {
    hide Head, Print;
    match v
    case Natural(n) => PrintOne(Uint(n));
    case Octets(b) => PrintOne(Blob(b));
    case Letters(b) => PrintOne(Text(b));
    case List(of) =>
      PrintJoin([Array(Count(of))], FlatAll(of));
      PrintOne(Array(Count(of)));
      AllFlatPrints(of);
  }

  lemma {:induction false} AllFlatPrints(vs: seq<Value>)
    ensures Print(FlatAll(vs)) == CodedAll(vs)
    decreases vs, 1
  {
    hide Coded, Flat;
    if vs != [] {
      PrintJoin(Flat(vs[0]), FlatAll(vs[1..]));
      FlatPrints(vs[0]);
      AllFlatPrints(vs[1..]);
    }
  }

  /** Strings of one kind, in order. */
  function Each(list: seq<Small>): seq<Value> { seq(|list|, i requires 0 <= i < |list| => Octets(list[i])) }

  lemma {:induction false} EachFlat(list: seq<Small>)
    ensures FlatAll(Each(list)) == Blobs(list)
  {
    if list != [] {
      EachFlat(list[1..]);
      assert Each(list)[1..] == Each(list[1..]);
      assert Blobs(list) == [Blob(list[0])] + Blobs(list[1..]);
    }
  }

  lemma {:induction false} FlatJoin(a: seq<Value>, b: seq<Value>)
    ensures FlatAll(a + b) == FlatAll(a) + FlatAll(b)
  {
    hide Flat;
    if a == [] {
      assert a + b == b;
    } else {
      FlatJoin(a[1..], b);
      assert (a + b)[0] == a[0] && (a + b)[1..] == a[1..] + b;
    }
  }

  // ----- the storage manifest: schema/store/manifest-v1.cddl -----

  function ManifestValue(m: ManifestCodec.WireManifest): Value {
    List([Natural(1), Octets(m.origin), Natural(m.sequence), Letters(m.namespace), Natural(m.epoch), List(Each(m.targets)),
          Natural(m.expiresAt), Natural(m.hopLimit), Natural(m.contentLen), List(Each(m.hashes))])
  }

  /** A manifest is encoded as the canonical bytes of its schema's value, field for field. */
  lemma ManifestSchema(m: ManifestCodec.WireManifest)
    requires ManifestCodec.Valid(m)
    ensures ManifestCodec.Encoding(m) == Coded(ManifestValue(m))
  {
    var first, second := [Natural(1), Octets(m.origin), Natural(m.sequence), Letters(m.namespace), Natural(m.epoch)],
      [Natural(m.expiresAt), Natural(m.hopLimit), Natural(m.contentLen)];
    assert ManifestCodec.Bounded(m);
    hide Head, Print, Coded, Flat, Each, Blobs, ManifestCodec.Valid, ManifestCodec.Items;
    ManifestParts(m, first, second);
    FlatList(ManifestValue(m).of);
    FlatPrints(ManifestValue(m));
  }

  lemma ManifestParts(m: ManifestCodec.WireManifest, first: seq<Value>, second: seq<Value>)
    requires ManifestCodec.Bounded(m)
    requires first == [Natural(1), Octets(m.origin), Natural(m.sequence), Letters(m.namespace), Natural(m.epoch)]
    requires second == [Natural(m.expiresAt), Natural(m.hopLimit), Natural(m.contentLen)]
    ensures [Array(10)] + FlatAll(ManifestValue(m).of) == ManifestCodec.Items(m)
  {
    var ones, twos: seq<Item> := [Uint(1), Blob(m.origin), Uint(m.sequence), Text(m.namespace), Uint(m.epoch)],
      [Uint(m.expiresAt), Uint(m.hopLimit), Uint(m.contentLen)];
    SimpleFlat(first, ones);
    SimpleFlat(second, twos);
    hide Flat, Each, Blobs, FlatAll;
    ListFlat(m.targets);
    ListFlat(m.hashes);
    assert ManifestValue(m).of == first + [List(Each(m.targets))] + second + [List(Each(m.hashes))];
    FourParts(first, [List(Each(m.targets))], second, [List(Each(m.hashes))]);
  }

  lemma FlatList(of: seq<Value>)
    requires |of| < 0x1_0000_0000
    ensures Flat(List(of)) == [Array(|of|)] + FlatAll(of)
  {
  }

  /** Values that are one item each. */
  lemma {:induction false} SimpleFlat(vs: seq<Value>, items: seq<Item>)
    requires |vs| == |items| && forall i :: 0 <= i < |vs| ==> Flat(vs[i]) == [items[i]]
    ensures FlatAll(vs) == items
  {
    hide Flat;
    if vs != [] {
      SimpleFlat(vs[1..], items[1..]);
      assert items == [items[0]] + items[1..];
    }
  }

  lemma ListFlat(list: seq<Small>)
    requires |list| < 0x1_0000_0000
    ensures FlatAll([List(Each(list))]) == [Array(|list|)] + Blobs(list)
  {
    EachFlat(list);
    OneList(Each(list));
  }

  lemma OneList(of: seq<Value>)
    requires |of| < 0x1_0000_0000
    ensures FlatAll([List(of)]) == [Array(|of|)] + FlatAll(of)
  {
    FlatList(of);
    hide Flat;
    assert [List(of)][1..] == [];
    assert FlatAll([List(of)]) == Flat(List(of)) + FlatAll([]);
  }

  lemma FourParts(a: seq<Value>, b: seq<Value>, c: seq<Value>, d: seq<Value>)
    ensures FlatAll(a + b + c + d) == FlatAll(a) + FlatAll(b) + FlatAll(c) + FlatAll(d)
  {
    FlatJoin(a + b + c, d);
    FlatJoin(a + b, c);
    FlatJoin(a, b);
  }

  // ----- the envelope header: header-body of schema/protocol/lab-v1.cddl -----

  function TargetValue(t: HeaderCodec.Target): Value { List([Octets(t.member), Octets(t.key)]) }

  function TargetValues(targets: seq<HeaderCodec.Target>): seq<Value> {
    seq(|targets|, i requires 0 <= i < |targets| => TargetValue(targets[i]))
  }

  function HeaderValue(h: HeaderCodec.WireHeader): Value {
    List([Natural(1), Natural(1), Octets(h.group), Octets(h.origin), Natural(h.sequence), Natural(h.epoch), Letters(h.namespace), Natural(1),
          Natural(h.created), Natural(h.expires), Natural(h.hops), List(TargetValues(h.targets)), Natural(h.clearLen), Octets(h.salt)])
  }

  lemma {:induction false} TargetsFlat(targets: seq<HeaderCodec.Target>)
    ensures FlatAll(TargetValues(targets)) == HeaderCodec.AllTargets(targets)
  {
    if targets != [] {
      var init, last := targets[..|targets| - 1], targets[|targets| - 1];
      TargetsFlat(init);
      assert TargetValues(targets) == TargetValues(init) + [TargetValue(last)];
      FlatJoin(TargetValues(init), [TargetValue(last)]);
      OneTargetFlat(last);
    }
  }

  lemma OneTargetFlat(t: HeaderCodec.Target)
    ensures FlatAll([TargetValue(t)]) == HeaderCodec.TargetItems(t)
  {
    SimpleFlat(TargetValue(t).of, [Blob(t.member), Blob(t.key)]);
    assert [TargetValue(t)][1..] == [];
  }

  /** An envelope header is encoded as the canonical bytes of its schema's value, field for field. */
  lemma HeaderSchema(h: HeaderCodec.WireHeader)
    requires HeaderCodec.Valid(h)
    ensures HeaderCodec.Encoding(h) == Coded(HeaderValue(h))
  {
    assert HeaderCodec.Bounded(h);
    hide Head, Print, Coded, Flat, TargetValues, HeaderCodec.Valid, HeaderCodec.Items;
    HeaderParts(h);
    FlatList(HeaderValue(h).of);
    FlatPrints(HeaderValue(h));
  }

  function HeaderStart(h: HeaderCodec.WireHeader): seq<Value> {
    [Natural(1), Natural(1), Octets(h.group), Octets(h.origin), Natural(h.sequence), Natural(h.epoch), Letters(h.namespace), Natural(1),
     Natural(h.created), Natural(h.expires), Natural(h.hops)]
  }

  lemma HeaderStartFlat(h: HeaderCodec.WireHeader)
    requires HeaderCodec.Bounded(h)
    ensures [Array(14)] + FlatAll(HeaderStart(h)) + [Array(|h.targets|)] == HeaderCodec.Front(h)
  {
    var ones: seq<Item> := [Uint(1), Uint(1), Blob(h.group), Blob(h.origin), Uint(h.sequence), Uint(h.epoch), Text(h.namespace),
                            Uint(1), Uint(h.created), Uint(h.expires), Uint(h.hops)];
    SimpleFlat(HeaderStart(h), ones);
  }

  lemma HeaderParts(h: HeaderCodec.WireHeader)
    requires HeaderCodec.Bounded(h)
    ensures [Array(14)] + FlatAll(HeaderValue(h).of) == HeaderCodec.Items(h)
  {
    var list, back := [List(TargetValues(h.targets))], [Natural(h.clearLen), Octets(h.salt)];
    assert HeaderValue(h).of == HeaderStart(h) + list + back + [];
    SimpleFlat(back, HeaderCodec.Back(h));
    SimpleFlat([], []);
    hide Flat, FlatAll, TargetValues, HeaderStart, HeaderCodec.AllTargets, HeaderCodec.Front, HeaderCodec.Back;
    HeaderStartFlat(h);
    TargetListFlat(h.targets);
    FourParts(HeaderStart(h), list, back, []);
  }

  lemma TargetListFlat(targets: seq<HeaderCodec.Target>)
    requires |targets| < 0x1_0000_0000
    ensures FlatAll([List(TargetValues(targets))]) == [Array(|targets|)] + HeaderCodec.AllTargets(targets)
  {
    TargetsFlat(targets);
    OneList(TargetValues(targets));
  }

  // ----- policy bundles and handoffs -----

  function Naturals(list: seq<u64>): seq<Value> { seq(|list|, i requires 0 <= i < |list| => Natural(list[i])) }

  function PolicyValue(b: PolicyCodec.Bundle): Value {
    List([Natural(1), Octets(b.authority), Octets(b.group), Natural(b.epoch), List(Each(b.certificates)), List(Naturals(b.revoked))])
  }

  /** A policy bundle is encoded as version, authority, scope, certificates and revocations, in that order. */
  lemma PolicySchema(b: PolicyCodec.Bundle)
    requires PolicyCodec.Valid(b)
    ensures PolicyCodec.Encoding(b) == Coded(PolicyValue(b))
  {
    assert PolicyCodec.Bounded(b);
    hide Head, Print, Coded, Flat, Each, Blobs, PolicyCodec.Valid, PolicyCodec.Items;
    PolicyParts(b);
    FlatList(PolicyValue(b).of);
    FlatPrints(PolicyValue(b));
  }

  function PolicyStart(b: PolicyCodec.Bundle): seq<Value> { [Natural(1), Octets(b.authority), Octets(b.group), Natural(b.epoch)] }

  lemma PolicyStartFlat(b: PolicyCodec.Bundle)
    requires PolicyCodec.Bounded(b)
    ensures [Array(6)] + FlatAll(PolicyStart(b)) + [Array(|b.certificates|)] == PolicyCodec.Front(b)
  {
    SimpleFlat(PolicyStart(b), [Uint(1), Blob(b.authority), Blob(b.group), Uint(b.epoch)]);
  }

  lemma RevokedFlat(revoked: seq<u64>)
    requires |revoked| < 0x1_0000_0000
    ensures FlatAll([List(Naturals(revoked))]) == [Array(|revoked|)] + Uints(revoked)
  {
    SimpleFlat(Naturals(revoked), Uints(revoked));
    OneList(Naturals(revoked));
  }

  lemma PolicyShape(b: PolicyCodec.Bundle, certificates: seq<Value>, revoked: seq<Value>)
    requires certificates == [List(Each(b.certificates))] && revoked == [List(Naturals(b.revoked))]
    ensures PolicyValue(b).of == PolicyStart(b) + certificates + revoked + []
  {
    hide Each, Naturals;
  }

  lemma PolicyParts(b: PolicyCodec.Bundle)
    requires PolicyCodec.Bounded(b)
    ensures [Array(6)] + FlatAll(PolicyValue(b).of) == PolicyCodec.Items(b)
  {
    hide Flat, Each, Blobs, Naturals, Uints, PolicyStart, PolicyCodec.Front;
    var certificates, revoked := [List(Each(b.certificates))], [List(Naturals(b.revoked))];
    PolicyStartFlat(b);
    ListFlat(b.certificates);
    RevokedFlat(b.revoked);
    PolicyShape(b, certificates, revoked);
    assert FlatAll([]) == [];
    FourParts(PolicyStart(b), certificates, revoked, []);
  }

  function HandoffBody(h: HandoffCodec.WireHandoff): Value {
    List([Natural(1), Octets(h.priorAuthority), Octets(h.priorGroup), Natural(h.priorEpoch), Octets(h.priorRosterDigest),
          Octets(h.nextAuthority), Natural(h.nextEpoch), Natural(h.validUntil)])
  }

  /** A handoff is encoded as a pair: the canonical bytes of its body, which the prior authority signs, and the signature. */
  lemma HandoffSchema(h: HandoffCodec.WireHandoff)
    ensures HandoffCodec.Body(h) == Coded(HandoffBody(h))
    ensures HandoffCodec.Encoding(h) == Coded(List([Octets(HandoffCodec.Body(h)), Octets(h.signature)]))
  {
    var items: seq<Item> := [Uint(1), Blob(h.priorAuthority), Blob(h.priorGroup), Uint(h.priorEpoch), Blob(h.priorRosterDigest),
                             Blob(h.nextAuthority), Uint(h.nextEpoch), Uint(h.validUntil)];
    assert HandoffCodec.BodyItems(h) == [Array(8)] + items;
    SimpleFlat(HandoffBody(h).of, items);
    var pair := [Octets(HandoffCodec.Body(h)), Octets(h.signature)];
    SimpleFlat(pair, [Blob(HandoffCodec.Body(h)), Blob(h.signature)]);
    hide Head, Print, Coded, Flat, HandoffCodec.BodyItems;
    FlatList(HandoffBody(h).of);
    FlatPrints(HandoffBody(h));
    FlatList(pair);
    assert HandoffCodec.Items(h) == [Array(2)] + [Blob(HandoffCodec.Body(h)), Blob(h.signature)];
    FlatPrints(List(pair));
  }

  // ----- the host envelope: schema/api/foundation.cddl -----

  /** A request is the canonical bytes of version, method and argument. */
  lemma RequestSchema(version: u64, method': u64, argument: u64)
    ensures HostEnvelopes.Triple(version, method', argument) == Coded(List([Natural(version), Natural(method'), Natural(argument)]))
  {
    assert Head(4, 3) == [0x83];
    hide Head, CodedAll;
    CodedThree(Natural(version), Natural(method'), Natural(argument));
  }

  lemma CodedThree(a: Value, b: Value, c: Value)
    ensures CodedAll([a, b, c]) == Coded(a) + Coded(b) + Coded(c)
  {
    hide Coded;
    assert [a, b, c][1..] == [b, c] && [b, c][1..] == [c] && [c][1..] == [];
    assert CodedAll([c]) == Coded(c) + CodedAll([]);
    assert CodedAll([b, c]) == Coded(b) + CodedAll([c]);
  }

  function EventValue(e: EventLogs.Event): Value { List([Natural(e.sequence), Natural(e.request), Natural(0)]) }

  function EventValues(events: seq<EventLogs.Event>): seq<Value> { seq(|events|, i requires 0 <= i < |events| => EventValue(events[i])) }

  lemma {:induction false} EventsSchema(events: seq<EventLogs.Event>)
    ensures SnapshotCodec.EventsBytes(events) == CodedAll(EventValues(events))
  {
    if events != [] {
      EventsSchema(events[1..]);
      assert EventValues(events)[1..] == EventValues(events[1..]);
      OneEvent(events[0]);
    }
  }

  lemma OneEvent(e: EventLogs.Event)
    ensures SnapshotCodec.Heads(SnapshotCodec.EVENT, SnapshotCodec.EventNumbers(e)) == Coded(EventValue(e))
  {
    hide Head, CodedAll, SnapshotCodec.Heads;
    HeadsFour(SnapshotCodec.EVENT, SnapshotCodec.EventNumbers(e));
    CodedThree(Natural(e.sequence), Natural(e.request), Natural(0));
  }

  lemma HeadsFour(majors: seq<SnapshotCodec.Major>, ns: seq<u64>)
    requires |majors| == |ns| == 4
    ensures SnapshotCodec.Heads(majors, ns) == Head(majors[0], ns[0]) + Head(majors[1], ns[1]) + Head(majors[2], ns[2]) + Head(majors[3], ns[3])
  {
    hide Head;
    var (m1, n1) := (majors[1..], ns[1..]);
    var (m2, n2) := (m1[1..], n1[1..]);
    var (m3, n3) := (m2[1..], n2[1..]);
    assert m3[1..] == [] && n3[1..] == [];
    assert SnapshotCodec.Heads(m3, n3) == Head(majors[3], ns[3]) + [];
    assert SnapshotCodec.Heads(m2, n2) == Head(majors[2], ns[2]) + SnapshotCodec.Heads(m3, n3);
    assert SnapshotCodec.Heads(m1, n1) == Head(majors[1], ns[1]) + SnapshotCodec.Heads(m2, n2);
  }

  /** A snapshot answer is version, method and a list of six: runtime, cursor, probes, state 0, whether it was reset, and the events. */
  lemma SnapshotSchema(op: u64, s: EventLogs.Snapshot)
    requires |s.events| <= EventLogs.MAX_EVENTS
    ensures SnapshotCodec.Encoded(op, s) ==
      [0x83] + Coded(Natural(1)) + Coded(Natural(op)) + [0x86] + Coded(Natural(s.runtime)) + Coded(Natural(s.cursor)) + Coded(Natural(s.probes))
      + Coded(Natural(0)) + [if s.reset then 0xF5 else 0xF4] + Coded(List(EventValues(s.events)))
  {
    assert |EventValues(s.events)| == |s.events| && Count(EventValues(s.events)) == |s.events|;
    hide Head, CodedAll, EventValues, Count, SnapshotCodec.EventsBytes, SnapshotCodec.Heads;
    EventsSchema(s.events);
    PrefixBytes(op, s);
  }

  lemma PrefixBytes(op: u64, s: EventLogs.Snapshot)
    ensures SnapshotCodec.Heads(SnapshotCodec.PREFIX, SnapshotCodec.PrefixNumbers(op, s)) ==
      [0x83] + Head(0, 1) + Head(0, op) + [0x86] + Head(0, s.runtime) + Head(0, s.cursor) + Head(0, s.probes) + Head(0, 0)
  {
    var majors, ns := SnapshotCodec.PREFIX, SnapshotCodec.PrefixNumbers(op, s);
    assert Head(4, 3) == [0x83] && Head(4, 6) == [0x86];
    hide Head, SnapshotCodec.Heads;
    var ma: seq<SnapshotCodec.Major>, mb: seq<SnapshotCodec.Major> := [4, 0, 0, 4], [0, 0, 0, 0];
    var na: seq<u64>, nb: seq<u64> := [3, 1, op, 6], [s.runtime, s.cursor, s.probes, 0];
    assert majors == ma + mb && ns == na + nb;
    HeadsJoin(ma, na, mb, nb);
    HeadsFour(ma, na);
    HeadsFour(mb, nb);
  }

  lemma {:induction false} HeadsJoin(ma: seq<SnapshotCodec.Major>, na: seq<u64>, mb: seq<SnapshotCodec.Major>, nb: seq<u64>)
    requires |ma| == |na| && |mb| == |nb|
    ensures SnapshotCodec.Heads(ma + mb, na + nb) == SnapshotCodec.Heads(ma, na) + SnapshotCodec.Heads(mb, nb)
    decreases |ma|
  {
    hide Head;
    if ma == [] {
      assert ma + mb == mb && na + nb == nb;
    } else {
      HeadsJoin(ma[1..], na[1..], mb, nb);
      assert (ma + mb)[1..] == ma[1..] + mb && (na + nb)[1..] == na[1..] + nb;
    }
  }

  // ----- the published vectors -----

  /** The requests of vectors/api/foundation.json that are valid, and the one of another version, are read as they say. */
  lemma InfoVector()
    ensures HostEnvelopes.OnRequest([0x83, 1, 0, 0]) == Ok(HostEnvelopes.EngineInfo)
  {
    ReadsTriple(1, 0, 0, [0]);
  }

  lemma SubscribeVector()
    ensures HostEnvelopes.OnRequest([0x83, 1, 1, 0]) == Ok(HostEnvelopes.Subscribe(0))
  {
    ReadsTriple(1, 1, 0, [0]);
  }

  lemma VerifyVector()
    ensures HostEnvelopes.OnRequest([0x83, 1, 2, 0x18, 24]) == Ok(HostEnvelopes.VerifyBridge(24))
  {
    assert BigEndian(24, 1) == [24];
    ReadsTriple(1, 2, 24, [0x18, 24]);
  }

  lemma VersionVector()
    ensures HostEnvelopes.OnRequest([0x83, 2, 0, 0]) == Err(HostEnvelopes.IncompatibleVersion)
  {
    ReadsTriple(2, 0, 0, [0]);
  }

  /** Its overlong integer and its trailing byte are refused. */
  lemma InvalidVectors()
    ensures HostEnvelopes.OnRequest([0x83, 1, 2, 0x18, 1]) == Err(HostEnvelopes.InvalidArgument)
    ensures HostEnvelopes.OnRequest([0x83, 1, 0, 0, 0]) == Err(HostEnvelopes.InvalidArgument)
  {
    NoTriple([0x83, 1, 2, 0x18, 1], 1, 2, [0x18, 1], [2, 0x18, 1]);
    NoTriple([0x83, 1, 0, 0, 0], 1, 0, [0, 0], [0, 0, 0]);
    hide HostEnvelopes.Untriple;
  }

  lemma NoTriple(b: Bytes, version: u64, op: u64, tail: Bytes, rest: Bytes)
    requires version < 24 && op < 24 && rest == [op as byte] + tail && b == [0x83, version as byte] + rest
    requires tail == [0x18, 1] || tail == [0, 0]
    ensures HostEnvelopes.Untriple(b).None?
  {
    assert Head(0, version) == [version as byte] && Head(0, op) == [op as byte];
    HostEnvelopes.NextExact(b[1..], version, rest);
    HostEnvelopes.NextExact(rest, op, tail);
    if tail == [0x18, 1] {
      assert tail[1..2] == [1] && FromBytes([1]) == 1;
      assert ParseHead(tail, 0).None?;
    }
    assert b[1..] == [version as byte] + rest;
    hide HostEnvelopes.Next;
  }

  lemma ReadsTriple(version: u64, op: u64, argument: u64, tail: Bytes)
    requires version < 24 && op < 24 && argument < 32 && tail == Head(0, argument)
    ensures HostEnvelopes.OnRequest([0x83, version as byte, op as byte] + tail) ==
      if version != 1 then Err(HostEnvelopes.IncompatibleVersion)
      else if op == 0 && argument == 0 then Ok(HostEnvelopes.EngineInfo)
      else if op == 1 then Ok(HostEnvelopes.Subscribe(argument))
      else if op == 2 && argument > 0 then Ok(HostEnvelopes.VerifyBridge(argument))
      else Err(HostEnvelopes.InvalidArgument)
  {
    var b := [0x83, version as byte, op as byte] + tail;
    assert Head(0, version) == [version as byte] && Head(0, op) == [op as byte];
    assert b == HostEnvelopes.Triple(version, op, argument);
    HostEnvelopes.UntripleExact(b, version, op, argument);
    hide HostEnvelopes.Untriple;
  }

  /** The snapshot of that file: runtime 1 with nothing in its log. */
  lemma SnapshotVector()
    ensures SnapshotCodec.Encoded(1, EventLogs.Snapshot(1, 0, 0, false, [])) == [0x83, 1, 1, 0x86, 1, 0, 0, 0, 0xF4, 0x80]
  {
    hide Coded, EventValues, SnapshotCodec.Encoded;
    SmallCodes();
    SnapshotSchema(1, EventLogs.Snapshot(1, 0, 0, false, []));
  }

  lemma SmallCodes()
    ensures Coded(Natural(0)) == [0] && Coded(Natural(1)) == [1] && Coded(List(EventValues([]))) == [0x80]
  {
    assert EventValues([]) == [];
  }

  /** An identifier of one byte repeated. */
  function Filled(b: byte): Id32 { seq(32, _ => b) }

  const SYNTHETIC: Small := [0x73, 0x79, 0x6e, 0x74, 0x68, 0x65, 0x74, 0x69, 0x63]
  const LAB_TEXT: Small := [0x6d, 0x65, 0x73, 0x68, 0x2e, 0x6c, 0x61, 0x62, 0x2e, 0x74, 0x65, 0x78, 0x74]

  lemma SmallNatural(n: u64)
    requires n < 24
    ensures Coded(Natural(n)) == [n as byte]
  {
  }

  lemma ByteNatural(n: u64)
    requires 24 <= n < 256
    ensures Coded(Natural(n)) == [0x18, n as byte]
  {
    assert Coded(Natural(n))[1..] == BigEndian(n, 1);
  }

  lemma Identifier(b: Id32)
    ensures Coded(Octets(b)) == [0x58, 0x20] + b
  {
    assert BigEndian(32, 1) == [0x20];
  }

  lemma ShortText(b: Small)
    requires |b| < 24
    ensures Coded(Letters(b)) == [0x60 + |b| as byte] + b
  {
  }

  lemma ShortList(of: seq<Value>)
    requires |of| < 24
    ensures Coded(List(of)) == [0x80 + |of| as byte] + CodedAll(of)
  {
  }

  lemma CodedNext(v: Value, rest: seq<Value>)
    ensures CodedAll([v] + rest) == Coded(v) + CodedAll(rest)
  {
    assert ([v] + rest)[1..] == rest;
  }

  lemma CodedOne(v: Value)
    ensures CodedAll([v]) == Coded(v)
  {
    CodedNext(v, []);
    assert [v] + [] == [v];
  }

  lemma CodedFive(a: Value, b: Value, c: Value, d: Value, e: Value, rest: seq<Value>)
    ensures CodedAll([a, b, c, d, e] + rest) == Coded(a) + (Coded(b) + (Coded(c) + (Coded(d) + (Coded(e) + CodedAll(rest)))))
  {
    hide Coded, CodedAll;
    assert [a, b, c, d, e] + rest == [a] + ([b] + ([c] + ([d] + ([e] + rest))));
    CodedNext(a, [b] + ([c] + ([d] + ([e] + rest))));
    CodedNext(b, [c] + ([d] + ([e] + rest)));
    CodedNext(c, [d] + ([e] + rest));
    CodedNext(d, [e] + rest);
    CodedNext(e, rest);
  }

  lemma OneIdentifier(b: Id32)
    ensures Coded(List(Each([b]))) == [0x81] + ([0x58, 0x20] + b)
  {
    assert Each([b]) == [Octets(b)];
    hide Coded, CodedAll;
    ShortList([Octets(b)]);
    CodedOne(Octets(b));
    Identifier(b);
  }

  function VectorManifest(digest: Id32): ManifestCodec.WireManifest {
    ManifestCodec.WireManifest(Filled(1), 1, SYNTHETIC, 1, [Filled(2)], 100, 4, 3, [digest])
  }

  lemma VectorManifestValid(digest: Id32)
    ensures ManifestCodec.Valid(VectorManifest(digest))
  {
  }

  lemma TenParts(digest: Id32, targets: Value, hashes: Value)
    requires targets == List(Each([Filled(2)])) && hashes == List(Each([digest]))
    ensures ManifestValue(VectorManifest(digest)).of == [Natural(1), Octets(Filled(1)), Natural(1), Letters(SYNTHETIC), Natural(1)]
                                                      + ([targets, Natural(100), Natural(4), Natural(3), hashes] + [])
  {
    hide Each, Filled;
  }

  lemma CodedManifest(digest: Id32)
    ensures Coded(ManifestValue(VectorManifest(digest))) ==
      [0x8A] + (Coded(Natural(1)) + (Coded(Octets(Filled(1))) + (Coded(Natural(1)) + (Coded(Letters(SYNTHETIC)) + (Coded(Natural(1))
      + (Coded(List(Each([Filled(2)]))) + (Coded(Natural(100)) + (Coded(Natural(4)) + (Coded(Natural(3)) + (Coded(List(Each([digest]))) + []))))))))))
  {
    hide Coded, CodedAll, Filled, Each;
    var targets, hashes := List(Each([Filled(2)])), List(Each([digest]));
    TenParts(digest, targets, hashes);
    ShortList(ManifestValue(VectorManifest(digest)).of);
    CodedFive(Natural(1), Octets(Filled(1)), Natural(1), Letters(SYNTHETIC), Natural(1),
              [targets, Natural(100), Natural(4), Natural(3), hashes] + []);
    CodedFive(targets, Natural(100), Natural(4), Natural(3), hashes, []);
    NothingCoded();
  }

  /** The manifest of vectors/store/manifest-v1.hex, around the digest of its chunk. */
  lemma ManifestVector(digest: Id32)
    ensures ManifestCodec.Valid(VectorManifest(digest)) && ManifestCodec.Encoding(VectorManifest(digest)) ==
      [0x8A] + ([1] + (([0x58, 0x20] + Filled(1)) + ([1] + (([0x69] + SYNTHETIC) + ([1] + (([0x81] + ([0x58, 0x20] + Filled(2)))
      + ([0x18, 100] + ([4] + ([3] + (([0x81] + ([0x58, 0x20] + digest)) + []))))))))))
  {
    hide Coded, Filled, Each, ManifestValue, VectorManifest, ManifestCodec.Valid, ManifestCodec.Encoding;
    VectorManifestValid(digest);
    ManifestSchema(VectorManifest(digest));
    CodedManifest(digest);
    SmallNatural(1);
    SmallNatural(3);
    SmallNatural(4);
    ByteNatural(100);
    Identifier(Filled(1));
    ShortText(SYNTHETIC);
    OneIdentifier(Filled(2));
    OneIdentifier(digest);
  }

  lemma NothingCoded()
    ensures CodedAll([]) == []
  {
  }

  const VECTOR_HEADER: HeaderCodec.WireHeader :=
    HeaderCodec.WireHeader(Filled(7), Filled(1), 24, 1, LAB_TEXT, 1, 100, 4, [HeaderCodec.Target(Filled(2), Filled(8))], 1025, Filled(9))

  lemma VectorHeaderValid()
    ensures HeaderCodec.Valid(VECTOR_HEADER)
  {
    assert HeaderCodec.Members(VECTOR_HEADER.targets) == [Filled(2)];
  }

  lemma FourteenParts(targets: Value)
    requires targets == List(TargetValues(VECTOR_HEADER.targets))
    ensures HeaderValue(VECTOR_HEADER).of == [Natural(1), Natural(1), Octets(Filled(7)), Octets(Filled(1)), Natural(24)]
                                           + ([Natural(1), Letters(LAB_TEXT), Natural(1), Natural(1), Natural(100)]
                                              + [Natural(4), targets, Natural(1025), Octets(Filled(9))])
  {
    hide TargetValues, Filled;
  }

  lemma CodedHeader()
    ensures Coded(HeaderValue(VECTOR_HEADER)) ==
      [0x8E] + (Coded(Natural(1)) + (Coded(Natural(1)) + (Coded(Octets(Filled(7))) + (Coded(Octets(Filled(1))) + (Coded(Natural(24))
      + (Coded(Natural(1)) + (Coded(Letters(LAB_TEXT)) + (Coded(Natural(1)) + (Coded(Natural(1)) + (Coded(Natural(100))
      + (Coded(Natural(4)) + (Coded(List(TargetValues(VECTOR_HEADER.targets))) + (Coded(Natural(1025)) + Coded(Octets(Filled(9))))))))))))))))
  {
    hide Coded, CodedAll, Filled, TargetValues;
    var targets := List(TargetValues(VECTOR_HEADER.targets));
    FourteenParts(targets);
    ShortList(HeaderValue(VECTOR_HEADER).of);
    var last := [Natural(4), targets, Natural(1025), Octets(Filled(9))];
    CodedFive(Natural(1), Natural(1), Octets(Filled(7)), Octets(Filled(1)), Natural(24),
              [Natural(1), Letters(LAB_TEXT), Natural(1), Natural(1), Natural(100)] + last);
    CodedFive(Natural(1), Letters(LAB_TEXT), Natural(1), Natural(1), Natural(100), last);
    CodedFour(Natural(4), targets, Natural(1025), Octets(Filled(9)));
  }

  /** The envelope header of vectors/protocol/header-v1.hex. */
  lemma HeaderVector()
    ensures HeaderCodec.Valid(VECTOR_HEADER) && HeaderCodec.Encoding(VECTOR_HEADER) ==
      [0x8E] + ([1] + ([1] + (([0x58, 0x20] + Filled(7)) + (([0x58, 0x20] + Filled(1)) + ([0x18, 24] + ([1] + (([0x6D] + LAB_TEXT) + ([1] + ([1]
      + ([0x18, 100] + ([4] + (([0x81] + ([0x82] + (([0x58, 0x20] + Filled(2)) + ([0x58, 0x20] + Filled(8)))))
      + ([0x19, 4, 1] + ([0x58, 0x20] + Filled(9)))))))))))))))
  {
    hide Coded, Filled, TargetValues, HeaderValue, HeaderCodec.Valid, HeaderCodec.Encoding;
    VectorHeaderValid();
    HeaderSchema(VECTOR_HEADER);
    CodedHeader();
    TargetVector();
    SmallNatural(1);
    SmallNatural(4);
    ByteNatural(24);
    ByteNatural(100);
    ClearLength();
    Identifier(Filled(7));
    Identifier(Filled(1));
    Identifier(Filled(9));
    ShortText(LAB_TEXT);
  }

  lemma ClearLength()
    ensures Coded(Natural(1025)) == [0x19, 4, 1]
  {
    assert BigEndian(1025, 2) == [4, 1];
  }

  lemma CodedFour(a: Value, b: Value, c: Value, d: Value)
    ensures CodedAll([a, b, c, d]) == Coded(a) + (Coded(b) + (Coded(c) + Coded(d)))
  {
    hide Coded, CodedAll;
    assert [a, b, c, d] == [a] + ([b] + ([c] + [d]));
    CodedNext(a, [b] + ([c] + [d]));
    CodedNext(b, [c] + [d]);
    CodedNext(c, [d]);
    CodedOne(d);
  }

  lemma TargetVector()
    ensures Coded(List(TargetValues(VECTOR_HEADER.targets))) == [0x81] + ([0x82] + (([0x58, 0x20] + Filled(2)) + ([0x58, 0x20] + Filled(8))))
  {
    var target := HeaderCodec.Target(Filled(2), Filled(8));
    assert TargetValues([target]) == [TargetValue(target)];
    hide Coded, CodedAll, TargetValues, Filled;
    ShortList([TargetValue(target)]);
    CodedOne(TargetValue(target));
    ShortList(TargetValue(target).of);
    assert TargetValue(target).of == [Octets(Filled(2))] + [Octets(Filled(8))];
    CodedNext(Octets(Filled(2)), [Octets(Filled(8))]);
    CodedOne(Octets(Filled(8)));
    Identifier(Filled(2));
    Identifier(Filled(8));
  }
}
