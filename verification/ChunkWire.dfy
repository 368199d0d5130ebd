/**
 * The binary wire format of an encrypted attachment chunk:
 * magic, version, id length, id, index, total, nonce, ciphertext length, ciphertext.
 *
 * `Parse` is what the offset-advancing decoder computes; a buffer decodes to a chunk exactly when it starts with
 * that chunk's encoding and the chunk fits the length fields.
 */
module ChunkWire {
  import opened Text
  import opened Bytes
  import opened Base64

  const MAGIC: seq<Byte> := [0x5A, 0x4B, 0x43, 0x4B]
  const NONCE_LEN: nat := 24
  const MIN_LEN: nat := 46

  datatype EncryptedChunk = EncryptedChunk(
    version: U32,
    attachmentId: Utf8,
    chunkIndex: U32,
    totalChunks: U32,
    nonce: string,
    ciphertext: string)

  datatype FormatError =
    | Truncated(expected: nat, actual: nat)
    | InvalidMagic
    | InvalidUtf8
    | InvalidNonce
    | InvalidCiphertext

  datatype Result<+T> = Ok(value: T) | Err(error: FormatError)

  /** The fields of a chunk with nonce and ciphertext as bytes. */
  datatype Raw = Raw(version: U32, id: seq<Byte>, index: U32, total: U32, nonce: seq<Byte>, ct: seq<Byte>)

  /** Five pieces one after the other. */
  function Glue(a: seq<Byte>, b: seq<Byte>, c: seq<Byte>, d: seq<Byte>, e: seq<Byte>): seq<Byte> {
    a + (b + (c + (d + e)))
  }

  /** The length fields wrap, as the casts to 16 and 32 bits do. */
  function Frame(r: Raw): seq<Byte> {
    Glue(MAGIC, BigEndian(r.version, 4), BigEndian(|r.id| % U16_LIMIT, 2), r.id, FrameTail(r))
  }

  function FrameTail(r: Raw): seq<Byte> {
    Glue(BigEndian(r.index, 4), BigEndian(r.total, 4), r.nonce, BigEndian(|r.ct| % U32_LIMIT, 4), r.ct)
  }

  /** What the length fields can express. */
  predicate RawFits(r: Raw) {
    |r.id| < U16_LIMIT && |r.nonce| == NONCE_LEN && |r.ct| < U32_LIMIT
  }

  function RawOf(c: EncryptedChunk): Result<Raw> {
    var nonce, ct := Decode(c.nonce, STANDARD), Decode(c.ciphertext, STANDARD);
    if nonce.None? || |nonce.value| > NONCE_LEN then Err(InvalidNonce)
    else if ct.None? then Err(InvalidCiphertext)
    else Ok(Raw(c.version, c.attachmentId, c.chunkIndex, c.totalChunks, nonce.value, ct.value))
  }

  function ChunkOf(r: Raw): EncryptedChunk
    requires IsUtf8(r.id)
  {
    EncryptedChunk(r.version, r.id, r.index, r.total, Encode(r.nonce, STANDARD), Encode(r.ct, STANDARD))
  }

  function Serialized(c: EncryptedChunk): Result<seq<Byte>> {
    var raw := RawOf(c);
    if raw.Err? then Err(raw.error) else Ok(Frame(raw.value))
  }

  predicate Fits(c: EncryptedChunk) {
    RawOf(c).Ok? && RawFits(RawOf(c).value)
  }

  function ParseRaw(bytes: seq<Byte>): (r: Result<Raw>)
    ensures r.Ok? ==> IsUtf8(r.value.id)
  {
    if |bytes| < MIN_LEN then Err(Truncated(MIN_LEN, |bytes|))
    else if bytes[0..4] != MAGIC then Err(InvalidMagic)
    else
      var idLen := ReadU16(bytes, 8);
      if |bytes| < 10 + idLen + 36 then Err(Truncated(10 + idLen + 36, |bytes|))
      else if !IsUtf8(bytes[10..10 + idLen]) then Err(InvalidUtf8)
      else ParseTail(bytes, ReadU32(bytes, 4), bytes[10..10 + idLen], 10 + idLen)
  }

  function ParseTail(bytes: seq<Byte>, version: U32, id: seq<Byte>, at: nat): (r: Result<Raw>)
    requires at + 36 <= |bytes|
    ensures r.Ok? ==> r.value.id == id
  {
    var ctLen := ReadU32(bytes, at + 32);
    if |bytes| < at + 36 + ctLen then Err(Truncated(at + 36 + ctLen, |bytes|))
    else
      Ok(Raw(version, id, ReadU32(bytes, at), ReadU32(bytes, at + 4),
             bytes[at + 8..at + 32], bytes[at + 36..at + 36 + ctLen]))
  }

  function Parse(bytes: seq<Byte>): Result<EncryptedChunk> {
    var raw := ParseRaw(bytes);
    if raw.Err? then Err(raw.error) else Ok(ChunkOf(raw.value))
  }

  // ---------------------------------------------------------------- the two routines

  method ToBytes(c: EncryptedChunk) returns (r: Result<seq<Byte>>)
    ensures r == Serialized(c)
  {
    var nonce := Decode(c.nonce, STANDARD);
    if nonce.None? || |nonce.value| > NONCE_LEN {
      return Err(InvalidNonce);
    }
    var ct := Decode(c.ciphertext, STANDARD);
    if ct.None? {
      return Err(InvalidCiphertext);
    }
    ghost var raw := RawOf(c).value;
    var out := MAGIC;
    out := out + BigEndian(c.version, 4);
    out := out + BigEndian(|c.attachmentId| % U16_LIMIT, 2);
    out := out + c.attachmentId;
    ghost var head := out;
    assert Frame(raw) == head + FrameTail(raw) by {
      GlueInOrder(MAGIC, BigEndian(c.version, 4), BigEndian(|c.attachmentId| % U16_LIMIT, 2), c.attachmentId,
                  FrameTail(raw));
    }
    out := out + BigEndian(c.chunkIndex, 4);
    out := out + BigEndian(c.totalChunks, 4);
    out := out + nonce.value;
    out := out + BigEndian(|ct.value| % U32_LIMIT, 4);
    out := out + ct.value;
    GlueAfter(head, BigEndian(c.chunkIndex, 4), BigEndian(c.totalChunks, 4), nonce.value,
              BigEndian(|ct.value| % U32_LIMIT, 4), ct.value);
    return Ok(out);
  }

  lemma GlueInOrder(a: seq<Byte>, b: seq<Byte>, c: seq<Byte>, d: seq<Byte>, e: seq<Byte>)
    ensures Glue(a, b, c, d, e) == a + b + c + d + e
  {}

  lemma GlueAfter(head: seq<Byte>, a: seq<Byte>, b: seq<Byte>, c: seq<Byte>, d: seq<Byte>, e: seq<Byte>)
    ensures head + Glue(a, b, c, d, e) == head + a + b + c + d + e
  {
    GlueInOrder(a, b, c, d, e);
    assert head + (a + b + c + d + e) == head + (a + b + c + d) + e;
    assert head + (a + b + c + d) == head + (a + b + c) + d;
    assert head + (a + b + c) == head + a + b + c;
  }

  method FromBytes(bytes: seq<Byte>) returns (r: Result<EncryptedChunk>)
    ensures r == Parse(bytes)
  {
    if |bytes| < 46 {
      return Err(Truncated(46, |bytes|));
    }
    if bytes[0..4] != MAGIC {
      return Err(InvalidMagic);
    }
    var version := ReadU32(bytes, 4);
    var idLen := ReadU16(bytes, 8);
    var offset := 10;
    if |bytes| < offset + idLen + 8 + 24 + 4 {
      return Err(Truncated(offset + idLen + 36, |bytes|));
    }
    if !IsUtf8(bytes[offset..offset + idLen]) {
      return Err(InvalidUtf8);
    }
    var id: Utf8 := bytes[offset..offset + idLen];
    offset := offset + idLen;
    r := FromTail(bytes, version, id, offset);
  }

  /** The fixed fields and the ciphertext, from `start` on. */
  method FromTail(bytes: seq<Byte>, version: U32, id: Utf8, start: nat) returns (r: Result<EncryptedChunk>)
    requires start + 36 <= |bytes|
    ensures var raw := ParseTail(bytes, version, id, start);
            r == if raw.Err? then Err(raw.error) else Ok(ChunkOf(raw.value))
  {
    var offset := start;
    var index := ReadU32(bytes, offset);
    offset := offset + 4;
    var total := ReadU32(bytes, offset);
    offset := offset + 4;
    var nonce := Encode(bytes[offset..offset + 24], STANDARD);
    offset := offset + 24;
    var ctLen := ReadU32(bytes, offset);
    offset := offset + 4;
    if |bytes| < offset + ctLen {
      return Err(Truncated(offset + ctLen, |bytes|));
    }
    return Ok(EncryptedChunk(version, id, index, total, nonce, Encode(bytes[offset..offset + ctLen], STANDARD)));
  }

  // ---------------------------------------------------------------- a frame is read back

  /** From position `at` on, `bytes` reads `rest`. */
  predicate At(bytes: seq<Byte>, at: nat, rest: seq<Byte>) {
    at <= |bytes| && bytes[at..] == rest
  }

  lemma Field(bytes: seq<Byte>, at: nat, field: seq<Byte>, rest: seq<Byte>)
    requires At(bytes, at, field + rest)
    ensures at + |field| <= |bytes| && bytes[at..at + |field|] == field && At(bytes, at + |field|, rest)
  {
    assert bytes[at..][..|field|] == field;
    assert bytes[at..][|field|..] == rest;
  }

  /** The five pieces are found where they were put. */
  lemma Pieces(bytes: seq<Byte>, at: nat, a: seq<Byte>, b: seq<Byte>, c: seq<Byte>, d: seq<Byte>, e: seq<Byte>)
    requires At(bytes, at, Glue(a, b, c, d, e))
    ensures var p1 := at + |a|; var p2 := p1 + |b|; var p3 := p2 + |c|; var p4 := p3 + |d|;
            && p4 + |e| == |bytes|
            && bytes[at..p1] == a && bytes[p1..p2] == b && bytes[p2..p3] == c && bytes[p3..p4] == d && bytes[p4..] == e
  {
    Field(bytes, at, a, b + (c + (d + e)));
    Field(bytes, at + |a|, b, c + (d + e));
    Field(bytes, at + |a| + |b|, c, d + e);
    Field(bytes, at + |a| + |b| + |c|, d, e);
  }

  lemma GlueWith(a: seq<Byte>, b: seq<Byte>, c: seq<Byte>, d: seq<Byte>, e: seq<Byte>, extra: seq<Byte>)
    ensures Glue(a, b, c, d, e) + extra == Glue(a, b, c, d, e + extra)
  {
    assert (d + e) + extra == d + (e + extra);
    assert (c + (d + e)) + extra == c + ((d + e) + extra);
    assert (b + (c + (d + e))) + extra == b + ((c + (d + e)) + extra);
  }

  lemma TailPieces(bytes: seq<Byte>, at: nat, index: seq<Byte>, total: seq<Byte>, nonce: seq<Byte>, len: seq<Byte>,
                   ct: seq<Byte>, extra: seq<Byte>)
    requires |index| == |total| == |len| == 4 && |nonce| == NONCE_LEN
    requires At(bytes, at, Glue(index, total, nonce, len, ct) + extra)
    ensures at + 36 + |ct| <= |bytes|
    ensures bytes[at..at + 4] == index && bytes[at + 4..at + 8] == total && bytes[at + 8..at + 32] == nonce
    ensures bytes[at + 32..at + 36] == len && bytes[at + 36..at + 36 + |ct|] == ct
  {
    GlueWith(index, total, nonce, len, ct, extra);
    Pieces(bytes, at, index, total, nonce, len, ct + extra);
    Field(bytes, at + 36, ct, extra);
  }

  lemma HeadPieces(bytes: seq<Byte>, magic: seq<Byte>, version: seq<Byte>, len: seq<Byte>, id: seq<Byte>,
                   tail: seq<Byte>, extra: seq<Byte>)
    requires |magic| == |version| == 4 && |len| == 2 && bytes == Glue(magic, version, len, id, tail) + extra
    ensures 10 + |id| <= |bytes|
    ensures bytes[0..4] == magic && bytes[4..8] == version && bytes[8..10] == len && bytes[10..10 + |id|] == id
    ensures At(bytes, 10 + |id|, tail + extra)
  {
    GlueWith(magic, version, len, id, tail, extra);
    assert bytes[0..] == bytes;
    Pieces(bytes, 0, magic, version, len, id, tail + extra);
  }

  lemma FrameTailIs(r: Raw)
    requires |r.ct| < U32_LIMIT
    ensures FrameTail(r) == Glue(BigEndian(r.index, 4), BigEndian(r.total, 4), r.nonce, BigEndian(|r.ct|, 4), r.ct)
  {
    ShortLength(|r.ct|, U32_LIMIT);
  }

  lemma FrameIs(r: Raw)
    requires |r.id| < U16_LIMIT
    ensures Frame(r) == Glue(MAGIC, BigEndian(r.version, 4), BigEndian(|r.id|, 2), r.id, FrameTail(r))
  {
    ShortLength(|r.id|, U16_LIMIT);
  }

  lemma TailFields(bytes: seq<Byte>, at: nat, r: Raw, extra: seq<Byte>)
    requires At(bytes, at, FrameTail(r) + extra) && RawFits(r)
    ensures at + 36 + |r.ct| <= |bytes|
    ensures bytes[at..at + 4] == BigEndian(r.index, 4)
    ensures bytes[at + 4..at + 8] == BigEndian(r.total, 4)
    ensures bytes[at + 8..at + 32] == r.nonce
    ensures bytes[at + 32..at + 36] == BigEndian(|r.ct|, 4)
    ensures bytes[at + 36..at + 36 + |r.ct|] == r.ct
  {
    FrameTailIs(r);
    TailPieces(bytes, at, BigEndian(r.index, 4), BigEndian(r.total, 4), r.nonce, BigEndian(|r.ct|, 4), r.ct, extra);
  }

  lemma HeadFields(bytes: seq<Byte>, r: Raw, extra: seq<Byte>)
    requires bytes == Frame(r) + extra && RawFits(r)
    ensures 10 + |r.id| <= |bytes|
    ensures bytes[0..4] == MAGIC && bytes[4..8] == BigEndian(r.version, 4) && bytes[8..10] == BigEndian(|r.id|, 2)
    ensures bytes[10..10 + |r.id|] == r.id
    ensures At(bytes, 10 + |r.id|, FrameTail(r) + extra)
  {
    FrameIs(r);
    HeadPieces(bytes, MAGIC, BigEndian(r.version, 4), BigEndian(|r.id|, 2), r.id, FrameTail(r), extra);
  }

  lemma TailParses(bytes: seq<Byte>, at: nat, r: Raw, extra: seq<Byte>)
    requires At(bytes, at, FrameTail(r) + extra) && RawFits(r)
    ensures at + 36 <= |bytes| && ParseTail(bytes, r.version, r.id, at) == Ok(r)
  {
    TailFields(bytes, at, r, extra);
    U32IsInjective(ReadU32(bytes, at), r.index);
    U32IsInjective(ReadU32(bytes, at + 4), r.total);
    U32IsInjective(ReadU32(bytes, at + 32), |r.ct|);
  }

  lemma FrameParses(r: Raw, extra: seq<Byte>)
    requires RawFits(r) && IsUtf8(r.id)
    ensures ParseRaw(Frame(r) + extra) == Ok(r)
  {
    var bytes := Frame(r) + extra;
    HeadFields(bytes, r, extra);
    TailParses(bytes, 10 + |r.id|, r, extra);
    U32IsInjective(ReadU32(bytes, 4), r.version);
    U16IsInjective(ReadU16(bytes, 8), |r.id|);
  }

  // ---------------------------------------------------------------- what is read is a frame

  lemma Piece(bytes: seq<Byte>, a: nat, b: nat, end: nat)
    requires a <= b <= end <= |bytes|
    ensures bytes[a..end] == bytes[a..b] + bytes[b..end]
  {}

  /** Consecutive pieces of a buffer, put together. */
  lemma Assemble(bytes: seq<Byte>, p: seq<nat>)
    requires |p| == 6 && p[0] <= p[1] <= p[2] <= p[3] <= p[4] <= p[5] <= |bytes|
    ensures bytes[p[0]..p[5]]
         == Glue(bytes[p[0]..p[1]], bytes[p[1]..p[2]], bytes[p[2]..p[3]], bytes[p[3]..p[4]], bytes[p[4]..p[5]])
  {
    Piece(bytes, p[3], p[4], p[5]);
    Piece(bytes, p[2], p[3], p[5]);
    Piece(bytes, p[1], p[2], p[5]);
    Piece(bytes, p[0], p[1], p[5]);
  }

  lemma ParsedTail(bytes: seq<Byte>, version: U32, id: seq<Byte>, at: nat)
    requires at + 36 <= |bytes| && ParseTail(bytes, version, id, at).Ok?
    ensures var r := ParseTail(bytes, version, id, at).value;
            && r.version == version && r.id == id && |r.nonce| == NONCE_LEN && |r.ct| < U32_LIMIT
            && at + 36 + |r.ct| <= |bytes| && bytes[at..at + 36 + |r.ct|] == FrameTail(r)
  {
    var r := ParseTail(bytes, version, id, at).value;
    Assemble(bytes, [at, at + 4, at + 8, at + 32, at + 36, at + 36 + |r.ct|]);
  }

  lemma PiecesAreGlued(bytes: seq<Byte>, magic: seq<Byte>, version: seq<Byte>, len: seq<Byte>, id: seq<Byte>,
                       tail: seq<Byte>)
    requires 10 + |id| + |tail| <= |bytes|
    requires bytes[0..4] == magic && bytes[4..8] == version && bytes[8..10] == len && bytes[10..10 + |id|] == id
    requires bytes[10 + |id|..10 + |id| + |tail|] == tail
    ensures Glue(magic, version, len, id, tail) == bytes[0..10 + |id| + |tail|]
  {
    Assemble(bytes, [0, 4, 8, 10, 10 + |id|, 10 + |id| + |tail|]);
  }

  lemma PiecesAreFrame(bytes: seq<Byte>, r: Raw, tail: seq<Byte>)
    requires |r.id| < U16_LIMIT && tail == FrameTail(r) && 10 + |r.id| + |tail| <= |bytes|
    requires bytes[0..4] == MAGIC && bytes[4..8] == BigEndian(r.version, 4) && bytes[8..10] == BigEndian(|r.id|, 2)
    requires bytes[10..10 + |r.id|] == r.id && bytes[10 + |r.id|..10 + |r.id| + |tail|] == tail
    ensures Frame(r) == bytes[0..10 + |r.id| + |tail|]
  {
    FrameIs(r);
    PiecesAreGlued(bytes, MAGIC, BigEndian(r.version, 4), BigEndian(|r.id|, 2), r.id, tail);
  }

  lemma ParsedIsFrame(bytes: seq<Byte>)
    requires ParseRaw(bytes).Ok?
    ensures RawFits(ParseRaw(bytes).value) && Frame(ParseRaw(bytes).value) <= bytes
  {
    var idLen := ReadU16(bytes, 8);
    ParsedTail(bytes, ReadU32(bytes, 4), bytes[10..10 + idLen], 10 + idLen);
    PiecesAreFrame(bytes, ParseRaw(bytes).value, FrameTail(ParseRaw(bytes).value));
  }

  // ---------------------------------------------------------------- chunks

  lemma RawOfChunkOf(r: Raw)
    requires |r.nonce| <= NONCE_LEN && IsUtf8(r.id)
    ensures RawOf(ChunkOf(r)) == Ok(r)
  {
    DecodeInvertsEncode(r.nonce, STANDARD);
    DecodeInvertsEncode(r.ct, STANDARD);
  }

  lemma ChunkOfRawOf(c: EncryptedChunk)
    requires RawOf(c).Ok?
    ensures ChunkOf(RawOf(c).value) == c
  {
    EncodeInvertsDecode(c.nonce, STANDARD);
    EncodeInvertsDecode(c.ciphertext, STANDARD);
  }

  lemma DecodedIsEncoding(bytes: seq<Byte>)
    requires Parse(bytes).Ok?
    ensures var c := Parse(bytes).value; Fits(c) && Serialized(c).value <= bytes
  {
    ParsedIsFrame(bytes);
    RawOfChunkOf(ParseRaw(bytes).value);
  }

  lemma FramePrefixParses(r: Raw, bytes: seq<Byte>)
    requires RawFits(r) && IsUtf8(r.id) && Frame(r) <= bytes
    ensures ParseRaw(bytes) == Ok(r)
  {
    var n := |Frame(r)|;
    FrameParses(r, bytes[n..]);
    assert bytes == Frame(r) + bytes[n..];
  }

  lemma EncodingDecodes(c: EncryptedChunk, bytes: seq<Byte>)
    requires Fits(c) && Serialized(c).value <= bytes
    ensures Parse(bytes) == Ok(c)
  {
    ChunkOfRawOf(c);
    FramePrefixParses(RawOf(c).value, bytes);
  }

  /**
   * A buffer decodes to `c` exactly when the length fields can express `c` and the buffer starts with its
   * encoding. What follows the encoding is ignored.
   */
  lemma DecodesExactlyEncodings(bytes: seq<Byte>, c: EncryptedChunk)
    ensures Parse(bytes) == Ok(c) <==> Fits(c) && Serialized(c).value <= bytes
  {
    if Parse(bytes) == Ok(c) {
      DecodedIsEncoding(bytes);
    }
    if Fits(c) && Serialized(c).value <= bytes {
      EncodingDecodes(c, bytes);
    }
  }

  /** A chunk survives the wire exactly when it fits: short id, a 24-byte nonce, a short ciphertext. */
  lemma RoundTripsExactlyWhenFits(c: EncryptedChunk)
    requires Serialized(c).Ok?
    ensures Parse(Serialized(c).value) == Ok(c) <==> Fits(c)
  {
    DecodesExactlyEncodings(Serialized(c).value, c);
  }

  /** A chunk without a nonce is serialised, and what comes back is not that chunk. */
  lemma EmptyNonceIsUnreadable(c: EncryptedChunk)
    requires c == EncryptedChunk(1, [], 0, 1, "", "")
    ensures Serialized(c).Ok? && !Fits(c) && Parse(Serialized(c).value) != Ok(c)
  {
    DecodesToExactly("", [], STANDARD);
    RoundTripsExactlyWhenFits(c);
  }

  /** An id of 65536 letters is serialised with length 0, whatever the other fields: it does not come back either. */
  lemma LongIdIsUnreadable(c: EncryptedChunk, id: string, nonce: seq<Byte>, ct: seq<Byte>)
    requires id == seq(U16_LIMIT, i => 'a') && |nonce| == NONCE_LEN
    requires c.attachmentId == Utf8Bytes(id) && c.nonce == Encode(nonce, STANDARD)
             && c.ciphertext == Encode(ct, STANDARD)
    ensures Serialized(c).Ok? && !Fits(c) && Parse(Serialized(c).value) != Ok(c)
    ensures Serialized(c).value[8..10] == BigEndian(0, 2)
  {
    AsciiBytes(id);
    DecodesToExactly(c.nonce, nonce, STANDARD);
    DecodesToExactly(c.ciphertext, ct, STANDARD);
    RoundTripsExactlyWhenFits(c);
    LengthBytes(RawOf(c).value);
  }

  lemma LengthBytes(r: Raw)
    ensures |Frame(r)| >= 10
    ensures Frame(r)[8..10] == BigEndian(|r.id| % U16_LIMIT, 2)
  {}

  /** Two chunks share a buffer only if they are one: no encoding is a prefix of another. */
  lemma EncodingsAreUnambiguous(c: EncryptedChunk, d: EncryptedChunk)
    requires Fits(c) && Fits(d) && Serialized(c).value <= Serialized(d).value
    ensures c == d
  {
    DecodesExactlyEncodings(Serialized(d).value, c);
    DecodesExactlyEncodings(Serialized(d).value, d);
  }

  lemma SameRead(bytes: seq<Byte>, n: nat, a: nat, b: nat)
    requires a <= b <= n <= |bytes|
    ensures bytes[..n][a..b] == bytes[a..b]
  {}

  /** The bytes that say how long the ciphertext is. */
  lemma LengthField(r: Raw)
    requires RawFits(r)
    ensures |Frame(r)| == 46 + |r.id| + |r.ct|
    ensures Frame(r)[42 + |r.id|..46 + |r.id|] == BigEndian(|r.ct|, 4)
  {
    assert Frame(r) + [] == Frame(r);
    HeadFields(Frame(r), r, []);
    TailFields(Frame(r), 10 + |r.id|, r, []);
  }

  lemma CutTailIsTruncated(bytes: seq<Byte>, n: nat, r: Raw)
    requires bytes == Frame(r) && RawFits(r) && 46 + |r.id| <= n < |bytes|
    ensures ParseTail(bytes[..n], r.version, r.id, 10 + |r.id|) == Err(Truncated(|bytes|, n))
  {
    LengthField(r);
    SameRead(bytes, n, 42 + |r.id|, 46 + |r.id|);
    ShortTail(bytes[..n], r.version, r.id, |r.ct|);
  }

  lemma ShortTail(bytes: seq<Byte>, version: U32, id: seq<Byte>, len: nat)
    requires 46 + |id| <= |bytes| < 46 + |id| + len && len < U32_LIMIT
    requires bytes[42 + |id|..46 + |id|] == BigEndian(len, 4)
    ensures ParseTail(bytes, version, id, 10 + |id|) == Err(Truncated(46 + |id| + len, |bytes|))
  {
    U32IsInjective(ReadU32(bytes, 42 + |id|), len);
  }

  /** An encoding cut short anywhere is refused as truncated, never misread as another chunk. */
  lemma CutEncodingIsTruncated(c: EncryptedChunk, n: nat)
    requires Fits(c) && n < |Serialized(c).value|
    ensures var r := Parse(Serialized(c).value[..n]);
            r.Err? && r.error.Truncated? && r.error.actual == n < r.error.expected
  {
    var r := RawOf(c).value;
    var bytes := Frame(r);
    if n >= 46 {
      assert Frame(r) + [] == Frame(r);
      HeadFields(bytes, r, []);
      SameRead(bytes, n, 0, 4);
      SameRead(bytes, n, 8, 10);
      U16IsInjective(ReadU16(bytes[..n], 8), |r.id|);
      if n >= 46 + |r.id| {
        SameRead(bytes, n, 4, 8);
        U32IsInjective(ReadU32(bytes[..n], 4), r.version);
        SameRead(bytes, n, 10, 10 + |r.id|);
        CutTailIsTruncated(bytes, n, r);
      }
    }
  }

  /** Which chunks are not serialised, and why. */
  lemma SerialisingFailsExactly(c: EncryptedChunk)
    ensures var nonce, ct, r := Decode(c.nonce, STANDARD), Decode(c.ciphertext, STANDARD), Serialized(c);
            && (nonce.None? || |nonce.value| > 24 <==> r == Err(InvalidNonce))
            && (nonce.Some? && |nonce.value| <= 24 && ct.None? <==> r == Err(InvalidCiphertext))
            && (r.Err? ==> r.error.InvalidNonce? || r.error.InvalidCiphertext?)
  {}

  /** Which buffers are refused for what stands in them: another magic, or an id that is not UTF-8. */
  lemma ParsingFailsExactly(bytes: seq<Byte>)
    ensures Parse(bytes) == Err(InvalidMagic) <==> |bytes| >= 46 && bytes[0..4] != [0x5A, 0x4B, 0x43, 0x4B]
    ensures Parse(bytes) == Err(InvalidUtf8) <==>
              && |bytes| >= 46 && bytes[0..4] == [0x5A, 0x4B, 0x43, 0x4B]
              && |bytes| >= 46 + ReadU16(bytes, 8) && !IsUtf8(bytes[10..10 + ReadU16(bytes, 8)])
    ensures |bytes| < 46 ==> Parse(bytes) == Err(Truncated(46, |bytes|))
  {}
}
