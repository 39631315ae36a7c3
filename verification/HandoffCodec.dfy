/** The canonical bytes of a signed authority handoff. */
module HandoffCodec {
  import opened Types
  import opened Words
  import opened Cbor

  const MAX_AUTHORITY_HANDOFF: nat := 512

  type Signature = b: Bytes | |b| == 64 witness seq(64, _ => 0)

  datatype WireHandoff = WireHandoff(
    priorAuthority: Id32, priorGroup: Id32, priorEpoch: u64, priorRosterDigest: Id32, nextAuthority: Id32, nextEpoch: u64,
    validUntil: u64, signature: Signature)

  /** The handoff leads to the very next epoch and to another authority. */
  predicate Valid(h: WireHandoff) {
    && 0 < h.priorEpoch <= MAX_LOGICAL_TIME && h.nextEpoch == h.priorEpoch + 1
    && 0 < h.validUntil <= MAX_LOGICAL_TIME && h.nextAuthority != h.priorAuthority
  }

  function BodyItems(h: WireHandoff): (f: seq<Item>)
    ensures |f| == 9
  {
    [Array(8), Uint(1), Blob(h.priorAuthority), Blob(h.priorGroup), Uint(h.priorEpoch), Blob(h.priorRosterDigest),
     Blob(h.nextAuthority), Uint(h.nextEpoch), Uint(h.validUntil)]
  }

  lemma BodyFits(h: WireHandoff)
    ensures Fit(BodyItems(h), BODY)
  {
  }

  /** What the prior authority signs. */
  function Body(h: WireHandoff): (b: Small)
    ensures |b| <= 369
  {
    SizeBound(BodyItems(h), 32);
    Print(BodyItems(h))
  }

  const BODY: seq<Kind> := [ArrayOf(8), Version, Fixed(32), Fixed(32), Number, Fixed(32), Fixed(32), Number, Number]
  const SIGNED: seq<Kind> := [ArrayOf(2), AtMost(MAX_AUTHORITY_HANDOFF), Fixed(64)]

  function Items(h: WireHandoff): seq<Item> { [Array(2), Blob(Body(h)), Blob(h.signature)] }

  function Encoding(h: WireHandoff): Bytes { Print(Items(h)) }

  /** Every handoff fits 512 bytes, so encoding never runs out of room. */
  lemma EncodingFits(h: WireHandoff)
    ensures |Encoding(h)| <= MAX_AUTHORITY_HANDOFF
  {
    PrintThree(Array(2), Blob(Body(h)), Blob(h.signature));
    assert |PrintItem(Array(2))| == 1;
    assert |PrintItem(Blob(Body(h)))| <= 3 + |Body(h)|;
    assert |PrintItem(Blob(h.signature))| == 66;
  }

  lemma EncodingUnique(g: WireHandoff, h: WireHandoff)
    requires Encoding(g) == Encoding(h)
    ensures g == h
  {
    PrintUnique(Items(g), Items(h));
    assert Items(g)[1] == Items(h)[1] && Items(g)[2] == Items(h)[2];
    PrintUnique(BodyItems(g), BodyItems(h));
    SameFields(g, h);
  }

  lemma SameFields(g: WireHandoff, h: WireHandoff)
    requires BodyItems(g) == BodyItems(h) && g.signature == h.signature
    ensures g == h
  {
    var a, b := BodyItems(g), BodyItems(h);
    assert a[2] == b[2] && a[3] == b[3] && a[4] == b[4] && a[5] == b[5] && a[6] == b[6] && a[7] == b[7] && a[8] == b[8];
  }

  method WriteBody(h: WireHandoff) returns (body: Small)
    ensures body == Body(h)
  {
    hide Print;
    var w := new Writer();
    w.WriteArray(8);
    w.WriteUint(1);
    w.WriteBlob(h.priorAuthority);
    w.WriteBlob(h.priorGroup);
    w.WriteUint(h.priorEpoch);
    w.WriteBlob(h.priorRosterDigest);
    w.WriteBlob(h.nextAuthority);
    w.WriteUint(h.nextEpoch);
    w.WriteUint(h.validUntil);
    assert w.items == BodyItems(h);
    assert w.out == Body(h);
    return w.out;
  }

  /** Refuses exactly the handoffs that are not valid; the size check at the end never fires. */
  method Encode(h: WireHandoff) returns (r: Result<Bytes, DurableError>)
    ensures r == if Valid(h) then Ok(Encoding(h)) else Err(InvalidInput)
  {
    hide Body;
    if !Valid(h) { return Err(InvalidInput); }
    var body := WriteBody(h);
    var signed := new Writer();
    signed.WriteArray(2);
    signed.WriteBlob(body);
    signed.WriteBlob(h.signature);
    assert signed.items == Items(h);
    EncodingFits(h);
    if |signed.out| > MAX_AUTHORITY_HANDOFF { return Err(ResourcePressure); }
    return Ok(signed.out);
  }

  ghost function Meant(bytes: Bytes): (w: Option<WireHandoff>)
    ensures w.Some? ==> Valid(w.value) && Encoding(w.value) == bytes
    ensures w.None? ==> forall h :: Valid(h) ==> Encoding(h) != bytes
  {
    if exists h :: Valid(h) && Encoding(h) == bytes then
      var h :| Valid(h) && Encoding(h) == bytes;
      Some(h)
    else None
  }

  function FromFields(body: seq<Item>, signature: Signature): (h: WireHandoff)
    requires Fit(body, BODY)
    ensures BodyItems(h) == body && h.signature == signature
  {
    WireHandoff(body[2].bytes, body[3].bytes, body[4].n, body[5].bytes, body[6].bytes, body[7].n, body[8].n, signature)
  }

  /** Accepts exactly the bytes of valid handoffs, each as that handoff. */
  method Decode(bytes: Bytes) returns (r: Result<WireHandoff, DurableError>)
    ensures r.Ok? ==> Valid(r.value) && Encoding(r.value) == bytes
    ensures forall h :: Valid(h) && Encoding(h) == bytes ==> r == Ok(h)
    ensures r.Err? ==> r.error in {InvalidInput, UnsupportedSchema}
  {
    ghost var w := Meant(bytes);
    forall h | Valid(h) && Encoding(h) == bytes ensures w == Some(h) { EncodingUnique(h, w.value); }
    if w.Some? { EncodingFits(w.value); }
    hide Valid, Encoding;
    if |bytes| > MAX_AUTHORITY_HANDOFF { return Err(InvalidInput); }
    r := DecodeFields(bytes, w);
  }

  method DecodeFields(bytes: Bytes, ghost w: Option<WireHandoff>) returns (r: Result<WireHandoff, DurableError>)
    requires w.Some? ==> Valid(w.value) && Encoding(w.value) == bytes
    ensures r.Ok? ==> Valid(r.value) && Encoding(r.value) == bytes
    ensures w.Some? ==> r == Ok(w.value)
    ensures r.Err? ==> r.error in {InvalidInput, UnsupportedSchema}
  {
    var outer := new Reader(bytes, if w.Some? then Some(Items(w.value)) else None);
    hide Print, Valid, BodyItems, Body;
    var signed := ReadFields(outer, SIGNED, if w.Some? then Items(w.value) else []);
    if signed.Err? { return Err(signed.error); }
    var end := outer.End();
    if end.Err? { return Err(end.error); }
    var body: Small, signature: Signature := signed.value[1].bytes, signed.value[2].bytes;
    var h := DecodeBody(body, signature, w);
    if h.Err? { return Err(h.error); }
    assert outer.items == Items(h.value);
    var encoded := Encode(h.value);
    if encoded.Err? { return Err(encoded.error); }
    return h;
  }

  /** The signed part: eight fields and nothing after them. */
  method DecodeBody(body: Small, signature: Signature, ghost w: Option<WireHandoff>) returns (r: Result<WireHandoff, DurableError>)
    requires w.Some? ==> Body(w.value) == body && w.value.signature == signature
    ensures r.Ok? ==> Body(r.value) == body && r.value.signature == signature
    ensures w.Some? ==> r == Ok(w.value)
    ensures r.Err? ==> r.error in {InvalidInput, UnsupportedSchema}
  {
    if w.Some? { BodyFits(w.value); }
    hide Print, FromFields, BodyItems;
    var reader := new Reader(body, if w.Some? then Some(BodyItems(w.value)) else None);
    var fields := ReadFields(reader, BODY, if w.Some? then BodyItems(w.value) else []);
    if fields.Err? { return Err(fields.error); }
    var end := reader.End();
    if end.Err? { return Err(end.error); }
    var h := FromFields(fields.value, signature);
    if w.Some? { SameFields(h, w.value); }
    assert reader.items == fields.value;
    return Ok(h);
  }
}
