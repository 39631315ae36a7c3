/** The sizes of what sealing produces: a sealed message always fits its object, and its records always fit a datagram. */
module Envelopes {
  import opened Types
  import opened Chunking
  import opened Cbor
  import ManifestCodec
  import HeaderCodec
  import RecordCodec

  type Sealed48 = b: Bytes | |b| == 48 witness seq(48, _ => 0)

  datatype Wrap = Wrap(encapsulated: Id32, ciphertext: Sealed48)

  function WrapItems(wraps: seq<Wrap>): seq<Item> {
    if wraps == [] then []
    else [Array(2), Blob(wraps[0].encapsulated), Blob(wraps[0].ciphertext)] + WrapItems(wraps[1..])
  }

  /** Each chunk of plaintext is sealed with a 16-byte tag. */
  predicate Seals(sealed: seq<Small>, plaintext: Bytes) {
    var chunks := Chunks(plaintext, CHUNK_BYTES);
    |sealed| == |chunks| && forall i :: 0 <= i < |chunks| ==> |sealed[i]| == |chunks[i]| + 16
  }

  function EnvelopeItems(header: Small, nonce: Small, wraps: seq<Wrap>, sealed: seq<Small>): seq<Item>
    requires |wraps| <= MAX_TARGETS && |sealed| <= MAX_CHUNKS
  {
    [Array(5), Uint(1), Blob(header), Blob(nonce), Array(|wraps|)] + WrapItems(wraps) + [Array(|sealed|)] + Blobs(sealed)
  }

  lemma {:induction false} SizeOfWraps(wraps: seq<Wrap>)
    ensures Size(WrapItems(wraps)) == 85 * |wraps|
  {
    if wraps != [] {
      var w := wraps[0];
      SizeOfWraps(wraps[1..]);
      SizeJoin([Array(2), Blob(w.encapsulated), Blob(w.ciphertext)], WrapItems(wraps[1..]));
      PrintThree(Array(2), Blob(w.encapsulated), Blob(w.ciphertext));
      assert |PrintItem(Array(2))| == 1 && |PrintItem(Blob(w.encapsulated))| == 34 && |PrintItem(Blob(w.ciphertext))| == 50;
    }
  }

  lemma SealedChunks(plaintext: Bytes, sealed: seq<Small>)
    requires 0 < |plaintext| <= HeaderCodec.MAX_PLAINTEXT && Seals(sealed, plaintext)
    ensures 0 < |sealed| <= 48 && Size(Blobs(sealed)) <= 1049 * |sealed|
  {
    ChunkCount(plaintext, CHUNK_BYTES);
    ChunksJoin(plaintext, CHUNK_BYTES);
    assert Short(Blobs(sealed), 1040);
    SizeBound(Blobs(sealed), 1040);
  }

  /** For every header the sealer accepts, the envelope is within the 64 KiB an object may hold. */
  lemma EnvelopeFits(h: HeaderCodec.WireHeader, header: Small, nonce: Small, wraps: seq<Wrap>, plaintext: Bytes, sealed: seq<Small>)
    requires HeaderCodec.Valid(h) && header == HeaderCodec.Encoding(h) && |nonce| == 12
    requires |wraps| == |h.targets| && |plaintext| == h.clearLen && Seals(sealed, plaintext)
    ensures |sealed| <= 48 && 0 < |Print(EnvelopeItems(header, nonce, wraps, sealed))| <= MAX_OBJECT_BYTES
  {
    hide HeaderCodec.Encoding, Seals, WrapItems, Blobs;
    HeaderCodec.EncodingFits(h);
    SealedChunks(plaintext, sealed);
    SizeOfWraps(wraps);
    hide HeaderCodec.Valid;
    var front := [Array(5), Uint(1), Blob(header), Blob(nonce), Array(|wraps|)];
    SizeJoin(front + WrapItems(wraps) + [Array(|sealed|)], Blobs(sealed));
    SizeJoin(front + WrapItems(wraps), [Array(|sealed|)]);
    SizeJoin(front, WrapItems(wraps));
    SizeBound(front, 2048);
    SizeBound([Array(|sealed|)], 0);
  }

  /** Bytes that sealing some message gives. */
  ghost predicate IsSealed(envelope: Bytes) {
    exists h, header, nonce, wraps, plaintext, sealed :: SealsTo(h, header, nonce, wraps, plaintext, sealed, envelope)
  }

  predicate SealsTo(h: HeaderCodec.WireHeader, header: Small, nonce: Small, wraps: seq<Wrap>, plaintext: Bytes, sealed: seq<Small>, envelope: Bytes) {
    && HeaderCodec.Valid(h) && header == HeaderCodec.Encoding(h) && |nonce| == 12
    && |wraps| == |h.targets| && |plaintext| == h.clearLen && Seals(sealed, plaintext) && |sealed| <= MAX_CHUNKS
    && envelope == Print(EnvelopeItems(header, nonce, wraps, sealed))
  }

  function Zeros(n: nat): Bytes { seq(n, _ => 0) }

  const PIECES: nat := 15

  lemma {:induction false} FullPieces(list: seq<Small>)
    requires forall b <- list :: |b| == CHUNK_BYTES + 16
    ensures 1040 * |list| <= Size(Blobs(list))
  {
    hide Blobs, Print;
    if list != [] {
      var init, last := list[..|list| - 1], list[|list| - 1];
      assert last in list && forall b <- init :: b in list;
      FullPieces(init);
      assert list == init + [last];
      LastBlob(init, last);
    }
  }

  lemma LastBlob(init: seq<Small>, last: Small)
    ensures Size(Blobs(init + [last])) >= Size(Blobs(init)) + |last|
  {
    assert Blobs(init + [last]) == Blobs(init) + [Blob(last)];
    hide Blobs;
    SizeJoin(Blobs(init), [Blob(last)]);
    hide Head;
    assert [Blob(last)][1..] == [] && Print([Blob(last)]) == PrintItem(Blob(last)) + Print([]);
  }

  lemma ZeroSeals(plaintext: Bytes, sealed: seq<Small>)
    requires plaintext == Zeros(PIECES * CHUNK_BYTES) && |sealed| == PIECES && forall b <- sealed :: |b| == CHUNK_BYTES + 16
    ensures Seals(sealed, plaintext)
  {
    var cs := Chunks(plaintext, CHUNK_BYTES);
    ChunkCount(plaintext, CHUNK_BYTES);
    forall i | 0 <= i < |cs| ensures |sealed[i]| == |cs[i]| + 16 {
      ChunkAt(plaintext, CHUNK_BYTES, i);
      assert sealed[i] in sealed;
    }
  }

  /** A message of 15 KiB for one recipient seals to between 15 KiB and 17100 bytes. */
  lemma SealedExample() returns (envelope: Bytes)
    ensures IsSealed(envelope) && PIECES * CHUNK_BYTES < |envelope| <= 17_100
  {
    var id: Id32 := Zeros(32);
    var h := HeaderCodec.WireHeader(id, id, 1, 1, [97], 1, 2, 1, [HeaderCodec.Target(id, id)], PIECES * CHUNK_BYTES, id);
    assert HeaderCodec.Valid(h);
    HeaderCodec.OneTargetFits(h);
    var header: Small, nonce: Small, plaintext := HeaderCodec.Encoding(h), Zeros(12), Zeros(PIECES * CHUNK_BYTES);
    var wraps: seq<Wrap>, sealed: seq<Small> := [Wrap(id, Zeros(48))], seq(PIECES, _ => Zeros(CHUNK_BYTES + 16));
    ZeroSeals(plaintext, sealed);
    envelope := Print(EnvelopeItems(header, nonce, wraps, sealed));
    assert SealsTo(h, header, nonce, wraps, plaintext, sealed, envelope);
    hide HeaderCodec.Encoding, HeaderCodec.Valid, Seals, SealsTo;
    ExampleSize(header, nonce, wraps, sealed);
  }

  lemma ExampleSize(header: Small, nonce: Small, wraps: seq<Wrap>, sealed: seq<Small>)
    requires |header| <= 1200 && |nonce| == 12 && |wraps| == 1 && |sealed| == PIECES && forall b <- sealed :: |b| == CHUNK_BYTES + 16
    ensures PIECES * CHUNK_BYTES < |Print(EnvelopeItems(header, nonce, wraps, sealed))| <= 17_100
  {
    hide WrapItems, Blobs;
    var front := [Array(5), Uint(1), Blob(header), Blob(nonce), Array(1)];
    SizeJoin(front + WrapItems(wraps) + [Array(PIECES)], Blobs(sealed));
    SizeJoin(front + WrapItems(wraps), [Array(PIECES)]);
    SizeJoin(front, WrapItems(wraps));
    SizeOfWraps(wraps);
    FullPieces(sealed);
    BlobsAtMost(sealed, CHUNK_BYTES + 16);
    FrontSize(header, nonce);
    SizeBound([Array(PIECES)], 0);
  }

  lemma BlobsAtMost(list: seq<Small>, n: nat)
    requires forall b <- list :: |b| == n
    ensures Size(Blobs(list)) <= (n + 9) * |list|
  {
    assert Short(Blobs(list), n);
    SizeBound(Blobs(list), n);
  }

  lemma FrontSize(header: Small, nonce: Small)
    requires |nonce| == 12
    ensures Size([Array(5), Uint(1), Blob(header), Blob(nonce), Array(1)]) <= |header| + 57
  {
    var ends, middle := [Array(5), Uint(1)], [Blob(header), Blob(nonce), Array(1)];
    assert [Array(5), Uint(1), Blob(header), Blob(nonce), Array(1)] == ends + middle;
    SizeJoin(ends, middle);
    SizeBound(ends, 0);
    PrintThree(Blob(header), Blob(nonce), Array(1));
    ItemSize(Blob(header));
    ItemSize(Blob(nonce));
    ItemSize(Array(1));
  }

  // ----- announcements -----

  type Signature = b: Bytes | |b| == 64 witness seq(64, _ => 0)

  function AnnouncementBody(group: Id32, m: ManifestCodec.WireManifest): (b: Small)
    requires ManifestCodec.Valid(m)
    ensures |b| <= 3 + 34 + 9 + ManifestCodec.LARGEST_MANIFEST
  {
    ManifestCodec.EncodingSize(m);
    BodySize(group, ManifestCodec.Encoding(m));
    Print([Array(3), Uint(1), Blob(group), Blob(ManifestCodec.Encoding(m))])
  }

  lemma BodySize(group: Id32, manifest: Small)
    ensures |Print([Array(3), Uint(1), Blob(group), Blob(manifest)])| <= 2 + 34 + 9 + |manifest|
  {
    PrintThree(Uint(1), Blob(group), Blob(manifest));
    assert [Array(3), Uint(1), Blob(group), Blob(manifest)][1..] == [Uint(1), Blob(group), Blob(manifest)];
    assert |PrintItem(Array(3))| == 1 && |PrintItem(Uint(1))| == 1 && |PrintItem(Blob(group))| == 34;
    ItemSize(Blob(manifest));
  }

  function AnnouncementBytes(group: Id32, m: ManifestCodec.WireManifest, signature: Signature): Bytes
    requires ManifestCodec.Valid(m)
  {
    Print([Array(2), Blob(AnnouncementBody(group, m)), Blob(signature)])
  }

  /** Every signed announcement of a valid manifest fits its record. */
  lemma AnnouncementFits(group: Id32, m: ManifestCodec.WireManifest, signature: Signature)
    requires ManifestCodec.Valid(m)
    ensures 0 < |AnnouncementBytes(group, m, signature)| <= RecordCodec.MAX_ANNOUNCEMENT
  {
    hide AnnouncementBody, ManifestCodec.Valid;
    PrintThree(Array(2), Blob(AnnouncementBody(group, m)), Blob(signature));
    assert |PrintItem(Array(2))| == 1;
    ItemSize(Blob(AnnouncementBody(group, m)));
    assert |PrintItem(Blob(signature))| == 66;
  }

  /** The announcement and every chunk of an object encode, each within 4096 bytes, under any relay frame. */
  lemma RecordsEncode(frame: RecordCodec.WireFrame, group: Id32, m: ManifestCodec.WireManifest, signature: Signature, id: Id32,
    envelope: Bytes, index: nat)
    requires ManifestCodec.Valid(m) && 0 < |envelope| <= MAX_OBJECT_BYTES && index < |Chunks(envelope, CHUNK_BYTES)|
    ensures index < 0x1_0000
    ensures
      var a := RecordCodec.EncodeRouted(RecordCodec.RoutedRecord(frame, RecordCodec.Announcement(AnnouncementBytes(group, m, signature))));
      a.Ok? && |a.value| <= 4096
    ensures
      var c := RecordCodec.EncodeRouted(RecordCodec.RoutedRecord(frame, RecordCodec.Chunk(id, index, Chunks(envelope, CHUNK_BYTES)[index])));
      c.Ok? && |c.value| <= 4096
  {
    hide AnnouncementBytes, ManifestCodec.Valid, RecordCodec.EncodeFrame;
    AnnouncementFits(group, m, signature);
    ChunksJoin(envelope, CHUNK_BYTES);
    ChunkCount(envelope, CHUNK_BYTES);
    RecordCodec.RoutedFits(RecordCodec.RoutedRecord(frame, RecordCodec.Announcement(AnnouncementBytes(group, m, signature))));
    RecordCodec.RoutedFits(RecordCodec.RoutedRecord(frame, RecordCodec.Chunk(id, index, Chunks(envelope, CHUNK_BYTES)[index])));
  }
}
