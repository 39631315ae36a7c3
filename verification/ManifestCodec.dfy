/** The canonical bytes of a storage manifest. */
module ManifestCodec {
  import opened Types
  import opened Words
  import opened Cbor

  const MAX_MANIFEST_BYTES: nat := 4096

  datatype WireManifest = WireManifest(
    origin: Id32, sequence: u64, namespace: Small, epoch: u64, targets: seq<Id32>, expiresAt: u64, hopLimit: u64,
    contentLen: u64, hashes: seq<Id32>)

  /** ASCII letters, digits, dot, underscore and dash; 1 to 64 of them. */
  predicate NamespaceOk(s: Bytes) {
    && 0 < |s| <= 64
    && forall b :: b in s ==> 48 <= b <= 57 || 65 <= b <= 90 || 97 <= b <= 122 || b == 46 || b == 95 || b == 45
  }

  /** Identifiers of one length order as their big-endian values do. */
  predicate Ascending(ids: seq<Id32>) {
    forall i :: 0 <= i < |ids| - 1 ==> FromBytes(ids[i]) < FromBytes(ids[i + 1])
  }

  predicate Valid(m: WireManifest) {
    && 0 < m.sequence <= MAX_LOGICAL_TIME && 0 < m.epoch <= MAX_LOGICAL_TIME && 0 < m.expiresAt <= MAX_LOGICAL_TIME
    && 0 < m.hopLimit <= 16 && Ascending(m.targets)
    && Bounded(m) && 0 < m.contentLen <= MAX_OBJECT_BYTES && |m.hashes| == (m.contentLen + CHUNK_BYTES - 1) / CHUNK_BYTES
    && NamespaceOk(m.namespace)
  }

  /** Within the counts the decoder allows. */
  predicate Bounded(m: WireManifest) { 0 < |m.targets| <= MAX_TARGETS && 0 < |m.hashes| <= MAX_CHUNKS }

  function Front(m: WireManifest): (f: seq<Item>)
    requires Bounded(m)
    ensures |f| == 7
  {
    [Array(10), Uint(1), Blob(m.origin), Uint(m.sequence), Text(m.namespace), Uint(m.epoch), Array(|m.targets|)]
  }

  function Middle(m: WireManifest): (f: seq<Item>)
    requires Bounded(m)
    ensures |f| == 4
  {
    [Uint(m.expiresAt), Uint(m.hopLimit), Uint(m.contentLen), Array(|m.hashes|)]
  }

  function Items(m: WireManifest): seq<Item>
    requires Bounded(m)
  {
    Front(m) + Blobs(m.targets) + Middle(m) + Blobs(m.hashes)
  }

  function Encoding(m: WireManifest): Bytes
    requires Bounded(m)
  {
    Print(Items(m))
  }

  lemma ItemsUnique(m: WireManifest, n: WireManifest)
    requires Bounded(m) && Bounded(n) && Items(m) == Items(n)
    ensures m == n
  {
    var a, b := Items(m), Items(n);
    assert a[..7] == Front(m) && b[..7] == Front(n);
    assert Front(m)[6] == Array(|m.targets|) && Front(n)[6] == Array(|n.targets|);
    var k := 7 + |m.targets|;
    assert a[7..k] == Blobs(m.targets) && b[7..k] == Blobs(n.targets);
    assert a[k..k + 4] == Middle(m) && b[k..k + 4] == Middle(n);
    assert a[k + 4..] == Blobs(m.hashes) && b[k + 4..] == Blobs(n.hashes);
    BlobsUnique(m.targets, n.targets);
    BlobsUnique(m.hashes, n.hashes);
    FrontFields(m, n);
  }

  lemma FrontFields(m: WireManifest, n: WireManifest)
    requires Bounded(m) && Bounded(n) && Front(m) == Front(n) && Middle(m) == Middle(n)
    ensures m.origin == n.origin && m.sequence == n.sequence && m.namespace == n.namespace && m.epoch == n.epoch
    ensures m.expiresAt == n.expiresAt && m.hopLimit == n.hopLimit && m.contentLen == n.contentLen
  {
    assert Front(m)[2] == Front(n)[2] && Front(m)[3] == Front(n)[3] && Front(m)[4] == Front(n)[4] && Front(m)[5] == Front(n)[5];
    assert Middle(m)[0] == Middle(n)[0] && Middle(m)[1] == Middle(n)[1] && Middle(m)[2] == Middle(n)[2];
  }

  /** Two manifests never share their bytes. */
  lemma EncodingUnique(m: WireManifest, n: WireManifest)
    requires Bounded(m) && Bounded(n) && Encoding(m) == Encoding(n)
    ensures m == n
  {
    PrintUnique(Items(m), Items(n));
    ItemsUnique(m, n);
  }

  const LARGEST_MANIFEST: nat := 3319

  lemma EncodingSize(m: WireManifest)
    requires Valid(m)
    ensures |Encoding(m)| <= LARGEST_MANIFEST
  {
    hide Front, Middle, Blobs;
    SizeJoin(Front(m) + Blobs(m.targets) + Middle(m), Blobs(m.hashes));
    SizeJoin(Front(m) + Blobs(m.targets), Middle(m));
    SizeJoin(Front(m), Blobs(m.targets));
    SizeOfBlobs(m.targets);
    SizeOfBlobs(m.hashes);
    ShortFields(m);
    SizeBound(Front(m), 64);
    SizeBound(Middle(m), 64);
  }

  lemma ShortFields(m: WireManifest)
    requires Valid(m)
    ensures Short(Front(m), 64) && Short(Middle(m), 64)
  {
  }

  /** Every valid manifest fits the decoder's limit. */
  lemma EncodingFits(m: WireManifest)
    requires Valid(m)
    ensures |Encoding(m)| <= MAX_MANIFEST_BYTES
  {
    EncodingSize(m);
  }

  /** Pushes the fields in order. */
  method Encode(m: WireManifest) returns (bytes: Bytes)
    requires Valid(m)
    ensures bytes == Encoding(m)
  {
    var w := new Writer();
    w.WriteArray(10);
    w.WriteUint(1);
    w.WriteBlob(m.origin);
    w.WriteUint(m.sequence);
    w.WriteText(m.namespace);
    w.WriteUint(m.epoch);
    w.WriteArray(|m.targets|);
    assert w.items == Front(m);
    hide Front, Blobs;
    WriteBlobs(w, m.targets);
    w.WriteUint(m.expiresAt);
    w.WriteUint(m.hopLimit);
    w.WriteUint(m.contentLen);
    w.WriteArray(|m.hashes|);
    assert w.items == Front(m) + Blobs(m.targets) + Middle(m);
    WriteBlobs(w, m.hashes);
    return w.out;
  }

  /** The manifest whose bytes these are, if there is one. */
  ghost function Meant(bytes: Bytes): (w: Option<WireManifest>)
    ensures w.Some? ==> Valid(w.value) && Encoding(w.value) == bytes
    ensures w.None? ==> forall m :: Valid(m) ==> Encoding(m) != bytes
  {
    if exists m :: Valid(m) && Encoding(m) == bytes then
      var m :| Valid(m) && Encoding(m) == bytes;
      Some(m)
    else None
  }

  const FRONT: seq<Kind> := [ArrayOf(10), Version, Fixed(32), Number, Chars(64), Number, Count(MAX_TARGETS)]
  const MIDDLE: seq<Kind> := [Number, Number, Number, Count(MAX_CHUNKS)]

  /** Where the decoder finds the fields of the manifest it is to read. */
  lemma FieldsOnGoal(m: WireManifest)
    requires Bounded(m) && |m.namespace| <= 64
    ensures
      var g, t, h := Items(m), Blobs(m.targets), Blobs(m.hashes);
      && Front(m) <= g && Front(m) + t <= g && Front(m) + t + Middle(m) <= g && g == Front(m) + t + Middle(m) + h
      && Fit(Front(m), FRONT) && Fit(Middle(m), MIDDLE)
      && Fit(t, Repeat(Fixed(32), |m.targets|)) && Fit(h, Repeat(Fixed(32), |m.hashes|))
  {
  }

  /** The manifest with these fields. */
  function FromFields(front: seq<Item>, targets: seq<Id32>, middle: seq<Item>, hashes: seq<Id32>): (m: WireManifest)
    requires Fit(front, FRONT) && Fit(middle, MIDDLE)
    requires 0 < |targets| == TargetCount(front) && 0 < |hashes| == HashCount(middle)
    ensures Bounded(m) && |m.namespace| <= 64 && Front(m) == front && Middle(m) == middle && m.targets == targets && m.hashes == hashes
  {
    WireManifest(front[2].bytes, front[3].n, front[4].bytes, front[5].n, targets, middle[0].n, middle[1].n, middle[2].n, hashes)
  }

  function TargetCount(front: seq<Item>): (n: nat)
    requires Fit(front, FRONT)
    ensures n <= MAX_TARGETS
  {
    front[6].n
  }

  function HashCount(middle: seq<Item>): (n: nat)
    requires Fit(middle, MIDDLE)
    ensures n <= MAX_CHUNKS
  {
    middle[3].n
  }

  lemma CountsOf(m: WireManifest)
    requires Bounded(m) && Fit(Front(m), FRONT)
    ensures Fit(Middle(m), MIDDLE)
    ensures TargetCount(Front(m)) == |m.targets| && HashCount(Middle(m)) == |m.hashes|
  {
  }

  lemma Assembled(m: WireManifest, items: seq<Item>, front: seq<Item>, targets: seq<Item>, middle: seq<Item>, hashes: seq<Item>)
    requires Bounded(m) && Front(m) == front && Blobs(m.targets) == targets && Middle(m) == middle && Blobs(m.hashes) == hashes
    requires items == [] + front + targets + middle + hashes
    ensures Items(m) == items
  {
    assert [] + front == front;
  }

  lemma SameFields(m: WireManifest, n: WireManifest)
    requires Bounded(m) && Bounded(n) && Front(m) == Front(n) && Middle(m) == Middle(n)
    requires Blobs(m.targets) == Blobs(n.targets) && Blobs(m.hashes) == Blobs(n.hashes)
    ensures m == n
  {
    FrontFields(m, n);
    BlobsUnique(m.targets, n.targets);
    BlobsUnique(m.hashes, n.hashes);
  }

  /** Accepts exactly the bytes of valid manifests, each as that manifest. */
  method Decode(bytes: Bytes) returns (r: Result<WireManifest, DurableError>)
    ensures r.Ok? ==> Valid(r.value) && Encoding(r.value) == bytes
    ensures forall m :: Valid(m) && Encoding(m) == bytes ==> r == Ok(m)
    ensures r.Err? ==> r.error in {InvalidInput, UnsupportedSchema}
  {
    ghost var w := Meant(bytes);
    forall m | Valid(m) && Encoding(m) == bytes ensures w == Some(m) { EncodingUnique(m, w.value); }
    if w.Some? { EncodingFits(w.value); }
    hide Valid, Encoding;
    if |bytes| > MAX_MANIFEST_BYTES { return Err(InvalidInput); }
    r := DecodeFields(bytes, w);
  }

  method DecodeFields(bytes: Bytes, ghost w: Option<WireManifest>) returns (r: Result<WireManifest, DurableError>)
    requires w.Some? ==> Valid(w.value) && Encoding(w.value) == bytes
    ensures r.Ok? ==> Valid(r.value) && Encoding(r.value) == bytes
    ensures w.Some? ==> r == Ok(w.value)
    ensures r.Err? ==> r.error in {InvalidInput, UnsupportedSchema}
  {
    var reader := new Reader(bytes, if w.Some? then Some(Items(w.value)) else None);
    if w.Some? { FieldsOnGoal(w.value); }
    hide Blobs, Front, Middle, Print, Valid, Fit, Items, Ids, TargetCount, HashCount, FromFields;
    var front := ReadFields(reader, FRONT, if w.Some? then Front(w.value) else []);
    if front.Err? { return Err(front.error); }
    if w.Some? { CountsOf(w.value); }
    var count := TargetCount(front.value);
    if count == 0 { return Err(InvalidInput); }
    var targets := ReadFields(reader, Repeat(Fixed(32), count), if w.Some? then Blobs(w.value.targets) else []);
    if targets.Err? { return Err(targets.error); }
    var middle := ReadFields(reader, MIDDLE, if w.Some? then Middle(w.value) else []);
    if middle.Err? { return Err(middle.error); }
    var hashCount := HashCount(middle.value);
    if hashCount == 0 { return Err(InvalidInput); }
    var hashes := ReadFields(reader, Repeat(Fixed(32), hashCount), if w.Some? then Blobs(w.value.hashes) else []);
    if hashes.Err? { return Err(hashes.error); }
    var end := reader.End();
    if end.Err? { return Err(end.error); }
    var m := FromFields(front.value, Ids(targets.value), middle.value, Ids(hashes.value));
    if w.Some? { SameFields(m, w.value); }
    Assembled(m, reader.items, front.value, targets.value, middle.value, hashes.value);
    if !Valid(m) { return Err(InvalidInput); }
    return Ok(m);
  }
}
