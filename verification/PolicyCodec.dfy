/** The canonical bytes of a policy bundle: a certified roster with its revocations. */
module PolicyCodec {
  import opened Types
  import opened Words
  import opened Cbor

  const MAX_POLICY_BUNDLE: nat := 64 * 1024
  const MAX_CERTIFICATE: u64 := 1024
  const MAX_REVOKED: nat := 1024

  datatype Bundle = Bundle(authority: Id32, group: Id32, epoch: u64, certificates: seq<Small>, revoked: seq<u64>)

  predicate Bounded(b: Bundle) {
    && |b.certificates| <= MAX_GROUP_MEMBERS && |b.revoked| <= MAX_REVOKED
    && forall i :: 0 <= i < |b.certificates| ==> |b.certificates[i]| <= MAX_CERTIFICATE
  }

  predicate Valid(b: Bundle) {
    && 0 < b.epoch <= MAX_LOGICAL_TIME && |b.certificates| > 0 && Bounded(b)
    && (forall i :: 0 <= i < |b.certificates| ==> b.certificates[i] != [])
    && (forall i :: 0 <= i < |b.revoked| ==> 0 < b.revoked[i] <= MAX_LOGICAL_TIME)
  }

  function Front(b: Bundle): (f: seq<Item>)
    requires Bounded(b)
    ensures |f| == 6
  {
    [Array(6), Uint(1), Blob(b.authority), Blob(b.group), Uint(b.epoch), Array(|b.certificates|)]
  }

  function Items(b: Bundle): seq<Item>
    requires Bounded(b)
  {
    Front(b) + Blobs(b.certificates) + [Array(|b.revoked|)] + Uints(b.revoked)
  }

  function Encoding(b: Bundle): Bytes
    requires Bounded(b)
  {
    Print(Items(b))
  }

  /** Every valid bundle fits 64 KiB, so encoding never runs out of room. */
  lemma EncodingFits(b: Bundle)
    requires Valid(b)
    ensures |Encoding(b)| <= MAX_POLICY_BUNDLE
  {
    SizeJoin(Front(b) + Blobs(b.certificates) + [Array(|b.revoked|)], Uints(b.revoked));
    SizeJoin(Front(b) + Blobs(b.certificates), [Array(|b.revoked|)]);
    SizeJoin(Front(b), Blobs(b.certificates));
    SizeBound(Front(b), 32);
    SizeBound(Blobs(b.certificates), MAX_CERTIFICATE);
    SizeBound([Array(|b.revoked|)], 0);
    SizeBound(Uints(b.revoked), 0);
  }

  lemma EncodingUnique(a: Bundle, b: Bundle)
    requires Bounded(a) && Bounded(b) && Encoding(a) == Encoding(b)
    ensures a == b
  {
    PrintUnique(Items(a), Items(b));
    var s, t, k := Items(a), Items(b), 6 + |a.certificates|;
    assert s[..6] == Front(a) && t[..6] == Front(b);
    assert Front(a)[5] == Array(|a.certificates|) && Front(b)[5] == Array(|b.certificates|);
    assert s[6..k] == Blobs(a.certificates) && t[6..k] == Blobs(b.certificates);
    assert s[k + 1..] == Uints(a.revoked) && t[k + 1..] == Uints(b.revoked);
    SameFields(a, b);
  }

  lemma SameFields(a: Bundle, b: Bundle)
    requires Bounded(a) && Bounded(b) && Front(a) == Front(b)
    requires Blobs(a.certificates) == Blobs(b.certificates) && Uints(a.revoked) == Uints(b.revoked)
    ensures a == b
  {
    BlobsUnique(a.certificates, b.certificates);
    UintsUnique(a.revoked, b.revoked);
    assert Front(a)[2] == Front(b)[2] && Front(a)[3] == Front(b)[3] && Front(a)[4] == Front(b)[4];
  }

  /** Refuses exactly the bundles that are not valid; the size check at the end never fires. */
  method Encode(b: Bundle) returns (r: Result<Bytes, DurableError>)
    ensures r == if Valid(b) then Ok(Encoding(b)) else Err(InvalidInput)
  {
    hide Valid;
    if !Valid(b) { return Err(InvalidInput); }
    ValidBounded(b);
    var w := new Writer();
    w.WriteArray(6);
    w.WriteUint(1);
    w.WriteBlob(b.authority);
    w.WriteBlob(b.group);
    w.WriteUint(b.epoch);
    w.WriteArray(|b.certificates|);
    assert w.items == Front(b);
    hide Front, Blobs, Uints;
    WriteBlobs(w, b.certificates);
    w.WriteArray(|b.revoked|);
    WriteUints(w, b.revoked);
    EncodingFits(b);
    if |w.out| > MAX_POLICY_BUNDLE { return Err(ResourcePressure); }
    return Ok(w.out);
  }

  lemma ValidBounded(b: Bundle)
    requires Valid(b)
    ensures Bounded(b)
  {
  }

  ghost function Meant(bytes: Bytes): (w: Option<Bundle>)
    ensures w.Some? ==> Valid(w.value) && Encoding(w.value) == bytes
    ensures w.None? ==> forall b :: Valid(b) ==> Encoding(b) != bytes
  {
    if exists b :: Valid(b) && Encoding(b) == bytes then
      var b :| Valid(b) && Encoding(b) == bytes;
      Some(b)
    else None
  }

  const FRONT: seq<Kind> := [ArrayOf(6), Version, Fixed(32), Fixed(32), Number, Count(MAX_GROUP_MEMBERS)]

  lemma FieldsOnGoal(b: Bundle)
    requires Bounded(b)
    ensures
      var g, c := Items(b), Blobs(b.certificates);
      && Front(b) <= g && Front(b) + c <= g && Front(b) + c + [Array(|b.revoked|)] <= g
      && g == Front(b) + c + [Array(|b.revoked|)] + Uints(b.revoked)
      && Fit(Front(b), FRONT) && Fit(c, Repeat(AtMost(MAX_CERTIFICATE), |b.certificates|))
      && Fit([Array(|b.revoked|)], [Count(MAX_REVOKED)])
      && CertificateCount(Front(b)) == |b.certificates|
  {
  }

  function CertificateCount(front: seq<Item>): (n: nat)
    requires Fit(front, FRONT)
    ensures n <= MAX_GROUP_MEMBERS
  {
    front[5].n
  }

  function RevokedCount(count: seq<Item>): (n: nat)
    requires Fit(count, [Count(MAX_REVOKED)])
    ensures n <= MAX_REVOKED && count == [Array(n)]
  {
    count[0].n
  }

  function FromFields(front: seq<Item>, certificates: seq<Small>, revoked: seq<u64>): (b: Bundle)
    requires Fit(front, FRONT) && |certificates| == CertificateCount(front) && |revoked| <= MAX_REVOKED
    requires forall i :: 0 <= i < |certificates| ==> |certificates[i]| <= MAX_CERTIFICATE
    ensures Bounded(b) && Front(b) == front && b.certificates == certificates && b.revoked == revoked
  {
    Bundle(front[2].bytes, front[3].bytes, front[4].n, certificates, revoked)
  }

  /** Accepts exactly the bytes of valid bundles, each as that bundle. */
  method Decode(bytes: Bytes) returns (r: Result<Bundle, DurableError>)
    ensures r.Ok? ==> Valid(r.value) && Encoding(r.value) == bytes
    ensures forall b :: Valid(b) && Encoding(b) == bytes ==> r == Ok(b)
    ensures r.Err? ==> r.error in {InvalidInput, UnsupportedSchema}
  {
    ghost var w := Meant(bytes);
    forall b | Valid(b) && Encoding(b) == bytes ensures w == Some(b) { EncodingUnique(b, w.value); }
    if w.Some? { EncodingFits(w.value); }
    hide Valid, Encoding;
    if |bytes| > MAX_POLICY_BUNDLE { return Err(InvalidInput); }
    r := DecodeFields(bytes, w);
  }

  method DecodeFields(bytes: Bytes, ghost w: Option<Bundle>) returns (r: Result<Bundle, DurableError>)
    requires w.Some? ==> Valid(w.value) && Encoding(w.value) == bytes
    ensures r.Ok? ==> Valid(r.value) && Encoding(r.value) == bytes
    ensures w.Some? ==> r == Ok(w.value)
    ensures r.Err? ==> r.error in {InvalidInput, UnsupportedSchema}
  {
    var reader := new Reader(bytes, if w.Some? then Some(Items(w.value)) else None);
    if w.Some? { FieldsOnGoal(w.value); }
    hide Blobs, Uints, Front, Print, Valid, Fit, Items, Strings, Numbers, CertificateCount, FromFields, Bounded;
    var front := ReadFields(reader, FRONT, if w.Some? then Front(w.value) else []);
    if front.Err? { return Err(front.error); }
    var certificates := ReadFields(reader, Repeat(AtMost(MAX_CERTIFICATE), CertificateCount(front.value)),
                                   if w.Some? then Blobs(w.value.certificates) else []);
    if certificates.Err? { return Err(certificates.error); }
    var count := ReadFields(reader, [Count(MAX_REVOKED)], if w.Some? then [Array(|w.value.revoked|)] else []);
    if count.Err? { return Err(count.error); }
    var revoked := ReadFields(reader, Repeat(Number, RevokedCount(count.value)), if w.Some? then Uints(w.value.revoked) else []);
    if revoked.Err? { return Err(revoked.error); }
    var end := reader.End();
    if end.Err? { return Err(end.error); }
    var b := FromFields(front.value, Strings(certificates.value, MAX_CERTIFICATE), Numbers(revoked.value));
    if w.Some? { SameFields(b, w.value); }
    Assembled(b, reader.items, front.value, certificates.value, count.value, revoked.value);
    var encoded := Encode(b);
    if encoded.Err? { return Err(encoded.error); }
    return Ok(b);
  }

  lemma Assembled(b: Bundle, items: seq<Item>, front: seq<Item>, certificates: seq<Item>, count: seq<Item>, revoked: seq<Item>)
    requires Bounded(b) && Front(b) == front && Blobs(b.certificates) == certificates && Uints(b.revoked) == revoked
    requires count == [Array(|b.revoked|)] && items == [] + front + certificates + count + revoked
    ensures Items(b) == items
  {
    assert [] + front == front;
  }
}
