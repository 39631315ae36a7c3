/** The fixed-layout records that travel between neighbours. */
module RecordCodec {
  import opened Types
  import opened Words
  import opened Cbor

  const MAX_ANNOUNCEMENT: nat := 3998
  const MAX_RECEIPT: nat := 1024
  const MAX_RECEIPT_ACK: nat := 1024
  const MAX_DURABLE_RECORD: nat := MAX_ANNOUNCEMENT + 5
  const MAX_RELAY_HOPS: nat := 16
  const RELAY_FRAME_BYTES: nat := 91
  const MAX_ROUTED_RECORD: nat := 2 + RELAY_FRAME_BYTES + MAX_DURABLE_RECORD

  type u16 = x: int | 0 <= x < 0x1_0000 witness 0

  datatype DurableRecord = Announcement(bytes: Bytes) | Chunk(id: Id32, index: u16, bytes: Bytes)
                         | Receipt(bytes: Bytes) | ReceiptAck(bytes: Bytes)

  function Limit(r: DurableRecord): nat {
    match r
    case Announcement(_) => MAX_ANNOUNCEMENT
    case Chunk(_, _, _) => CHUNK_BYTES
    case Receipt(_) => MAX_RECEIPT
    case ReceiptAck(_) => MAX_RECEIPT_ACK
  }

  function Length(n: nat): (s: Bytes)
    requires n < 0x1_0000
    ensures |s| == 2 && FromBytes(s) == n
  {
    BigEndianParses16(n);
    BigEndian(n, 2)
  }

  lemma BigEndianParses16(n: nat)
    requires n < 0x1_0000
    ensures FromBytes(BigEndian(n, 2)) == n
  {
    Pow256Up(2);
    BigEndianParses(n, 2);
  }

  lemma LengthPrints(s: Bytes)
    requires |s| == 2
    ensures FromBytes(s) < 0x1_0000 && Length(FromBytes(s)) == s
  {
    Pow256Up(2);
    FromBytesBound(s);
    BytesPrint(s);
  }

  function EncodeRecord(r: DurableRecord): Result<Bytes, DurableError> {
    if r.bytes == [] || |r.bytes| > Limit(r) then Err(InvalidInput)
    else
      var head: Bytes := [0x6d, 1];
      match r
      case Announcement(b) => Ok(head + [1] + Length(|b|) + b)
      case Chunk(id, index, b) => Ok(head + [2] + id + Length(index) + Length(|b|) + b)
      case Receipt(b) => Ok(head + [3] + Length(|b|) + b)
      case ReceiptAck(b) => Ok(head + [4] + Length(|b|) + b)
  }

  /** Two bytes are a number, the high one first. */
  predicate Short(b: Bytes, at: nat, n: nat) { at + 1 < |b| && b[at] as nat * 256 + b[at + 1] as nat == n }

  lemma LengthBytes(n: nat)
    requires n < 0x1_0000
    ensures Short(Length(n), 0, n)
  {
    var s := Length(n);
    assert s[..1][..0] == [] && FromBytes(s[..1]) == s[0] as nat;
  }

  /**
   * The bytes of a record: magic, version and tag; for a chunk its object and its index; then the length and the content. Nothing
   * encodes but contents that are neither empty nor over the limit of their kind.
   */
  lemma RecordLayout(r: DurableRecord)
    ensures EncodeRecord(r).Ok? <==> 0 < |r.bytes| <= (if r.Announcement? then 3998 else 1024)
    ensures EncodeRecord(r).Ok? ==>
      var b := EncodeRecord(r).value;
      && |b| >= 5 && b[0] == 0x6d && b[1] == 1
      && (match r
          case Announcement(content) => b[2] == 1 && Short(b, 3, |content|) && b[5..] == content
          case Chunk(id, index, content) =>
            |b| >= 39 && b[2] == 2 && b[3..35] == id && Short(b, 35, index) && Short(b, 37, |content|) && b[39..] == content
          case Receipt(content) => b[2] == 3 && Short(b, 3, |content|) && b[5..] == content
          case ReceiptAck(content) => b[2] == 4 && Short(b, 3, |content|) && b[5..] == content)
  {
    if EncodeRecord(r).Ok? {
      LengthBytes(|r.bytes|);
      if r.Chunk? { LengthBytes(r.index); }
    }
    hide Length;
  }

  function Tagged(tag: byte, bytes: Bytes): DurableRecord
    requires tag in {1, 3, 4}
  {
    if tag == 1 then Announcement(bytes) else if tag == 3 then Receipt(bytes) else ReceiptAck(bytes)
  }

  function DecodeRecord(input: Bytes): Result<DurableRecord, DurableError> {
    if |input| < 3 || |input| > MAX_DURABLE_RECORD || input[0] != 0x6d || input[1] != 1 then Err(InvalidInput)
    else if input[2] in {1, 3, 4} then
      if |input| < 5 then Err(InvalidInput)
      else
        var len := FromBytes(input[3..5]);
        if len == 0 || len > Limit(Tagged(input[2], [])) || |input| != 5 + len then Err(InvalidInput)
        else Ok(Tagged(input[2], input[5..]))
    else if input[2] == 2 then
      if |input| < 39 then Err(InvalidInput)
      else
        var len := FromBytes(input[37..39]);
        if len == 0 || len > CHUNK_BYTES || |input| != 39 + len then Err(InvalidInput)
        else
          LengthPrints(input[35..37]);
          Ok(Chunk(input[3..35], FromBytes(input[35..37]), input[39..]))
    else Err(UnsupportedSchema)
  }

  /** Whatever a record decodes from, it encodes back to exactly that. */
  lemma RecordDecodedPrints(input: Bytes)
    requires DecodeRecord(input).Ok?
    ensures EncodeRecord(DecodeRecord(input).value) == Ok(input)
  {
    var r := DecodeRecord(input).value;
    if r.Chunk? {
      LengthPrints(input[35..37]);
      LengthPrints(input[37..39]);
      assert input == [0x6d, 1] + [2] + input[3..35] + input[35..37] + input[37..39] + input[39..];
    } else {
      LengthPrints(input[3..5]);
      assert input == [0x6d, 1] + [input[2]] + input[3..5] + input[5..];
    }
  }

  /** Every record that encodes fits the limit and decodes to itself. */
  lemma RecordEncodedParses(r: DurableRecord)
    requires EncodeRecord(r).Ok?
    ensures DecodeRecord(EncodeRecord(r).value) == Ok(r) && |EncodeRecord(r).value| <= MAX_DURABLE_RECORD
  {
    var b := EncodeRecord(r).value;
    if r.Chunk? {
      assert b[3..35] == r.id && b[35..37] == Length(r.index) && b[37..39] == Length(|r.bytes|) && b[39..] == r.bytes;
    } else {
      assert b[3..5] == Length(|r.bytes|) && b[5..] == r.bytes;
    }
  }

  // ----- relay frames -----

  type Id16 = b: Bytes | |b| == 16 witness seq(16, _ => 0)

  datatype WireFrame = WireFrame(id: Id16, origin: Id32, previousHop: Id32, hops: byte, hopLimit: byte, expiresAt: u64)

  predicate FrameValid(f: WireFrame) {
    0 < f.hopLimit as nat <= MAX_RELAY_HOPS && f.hops <= f.hopLimit && f.expiresAt <= MAX_LOGICAL_TIME
  }

  function EncodeFrame(f: WireFrame): (b: Bytes)
    ensures |b| == RELAY_FRAME_BYTES
  {
    [1] + f.id + f.origin + f.previousHop + [f.hops, f.hopLimit] + BigEndian(f.expiresAt, 8)
  }

  /** The fields of a frame stand at these places, numbers with the highest byte first. */
  lemma FrameLayout(f: WireFrame)
    ensures
      var b := EncodeFrame(f);
      && b[0] == 1 && b[1..17] == f.id && b[17..49] == f.origin && b[49..81] == f.previousHop
      && b[81] == f.hops && b[82] == f.hopLimit && b[83..91] == BigEndian(f.expiresAt, 8) && FromBytes(b[83..91]) == f.expiresAt
  {
    Pow256Up(8);
    BigEndianParses(f.expiresAt, 8);
    hide BigEndian;
  }

  function DecodeFrame(b: Bytes): Result<WireFrame, DurableError> {
    if |b| != RELAY_FRAME_BYTES || b[0] != 1 then Err(InvalidInput)
    else
      WordBound(b[83..91]);
      var f := WireFrame(b[1..17], b[17..49], b[49..81], b[81], b[82], FromBytes(b[83..91]));
      if FrameValid(f) then Ok(f) else Err(InvalidInput)
  }

  /** Frame bytes and valid frames are the same thing. */
  lemma FrameRoundTrip(b: Bytes, f: WireFrame)
    ensures DecodeFrame(b) == Ok(f) <==> FrameValid(f) && EncodeFrame(f) == b
  {
    if DecodeFrame(b).Ok? {
      FrameDecodedPrints(b);
    }
    FrameEncodedParses(f);
  }

  lemma FrameDecodedPrints(b: Bytes)
    requires DecodeFrame(b).Ok?
    ensures EncodeFrame(DecodeFrame(b).value) == b
  {
    BytesPrint(b[83..91]);
    assert b == [b[0]] + b[1..17] + b[17..49] + b[49..81] + [b[81], b[82]] + b[83..91];
  }

  lemma FrameEncodedParses(f: WireFrame)
    ensures DecodeFrame(EncodeFrame(f)) == if FrameValid(f) then Ok(f) else Err(InvalidInput)
  {
    var b := EncodeFrame(f);
    Pow256Up(8);
    BigEndianParses(f.expiresAt, 8);
    assert b[1..17] == f.id && b[17..49] == f.origin && b[49..81] == f.previousHop && b[83..91] == BigEndian(f.expiresAt, 8);
  }

  // ----- routed records -----

  datatype RoutedRecord = RoutedRecord(frame: WireFrame, record: DurableRecord)

  function EncodeRouted(r: RoutedRecord): Result<Bytes, DurableError> {
    var record := EncodeRecord(r.record);
    if record.Err? then record else Ok([0x72, 1] + EncodeFrame(r.frame) + record.value)
  }

  function DecodeRouted(b: Bytes): Result<RoutedRecord, DurableError> {
    if |b| < 2 + RELAY_FRAME_BYTES || |b| > MAX_ROUTED_RECORD || b[0] != 0x72 || b[1] != 1 then Err(InvalidInput)
    else
      var frame := DecodeFrame(b[2..2 + RELAY_FRAME_BYTES]);
      if frame.Err? then Err(frame.error)
      else
        var record := DecodeRecord(b[2 + RELAY_FRAME_BYTES..]);
        if record.Err? then Err(record.error) else Ok(RoutedRecord(frame.value, record.value))
  }

  /** Routed bytes decode to r exactly when r's frame is valid and r encodes to those bytes. */
  lemma RoutedRoundTrip(b: Bytes, r: RoutedRecord)
    ensures DecodeRouted(b) == Ok(r) <==> FrameValid(r.frame) && EncodeRouted(r) == Ok(b)
  {
    hide EncodeRecord, DecodeRecord, EncodeFrame, DecodeFrame;
    if DecodeRouted(b) == Ok(r) {
      var f, rest := b[2..2 + RELAY_FRAME_BYTES], b[2 + RELAY_FRAME_BYTES..];
      FrameRoundTrip(f, r.frame);
      RecordDecodedPrints(rest);
      assert b == [0x72, 1] + f + rest;
    }
    if FrameValid(r.frame) && EncodeRouted(r) == Ok(b) {
      RecordEncodedParses(r.record);
      FrameRoundTrip(EncodeFrame(r.frame), r.frame);
      assert b[2..2 + RELAY_FRAME_BYTES] == EncodeFrame(r.frame) && b[2 + RELAY_FRAME_BYTES..] == EncodeRecord(r.record).value;
    }
  }

  /** A routed record is magic, version, frame and record. */
  lemma RoutedLayout(r: RoutedRecord)
    ensures EncodeRouted(r).Ok? <==> EncodeRecord(r.record).Ok?
    ensures EncodeRouted(r).Ok? ==>
      var b := EncodeRouted(r).value;
      |b| >= 93 && b[0] == 0x72 && b[1] == 1 && b[2..93] == EncodeFrame(r.frame) && b[93..] == EncodeRecord(r.record).value
  {
    hide EncodeRecord, EncodeFrame;
  }

  /** Every routed record that encodes stays within one 4096-byte datagram. */
  lemma RoutedFits(r: RoutedRecord)
    requires EncodeRouted(r).Ok?
    ensures |EncodeRouted(r).value| <= MAX_ROUTED_RECORD == 4096
  {
    hide EncodeRecord, EncodeFrame;
    RecordEncodedParses(r.record);
  }
}
