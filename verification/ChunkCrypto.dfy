/**
 * Encryption of one attachment chunk over an ideal authenticated cipher. The associated data binds version,
 * attachment, index and total; together with the canonical Base64 texts it determines the whole chunk.
 */
module ChunkCrypto {
  import opened Text
  import opened Bytes
  import opened Base64
  import opened ChunkWire

  const CHUNK_VERSION: U32 := 1

  /** "zk-attachment-chunk-aad:" */
  const AAD_PREFIX: seq<Byte> := [
    0x7A, 0x6B, 0x2D, 0x61, 0x74, 0x74, 0x61, 0x63, 0x68, 0x6D, 0x65, 0x6E, 0x74, 0x2D,
    0x63, 0x68, 0x75, 0x6E, 0x6B, 0x2D, 0x61, 0x61, 0x64, 0x3A]

  const COLON: seq<Byte> := [0x3A]

  /** A cipher, by key, nonce, associated data and message; opening fails unless the tag is right. */
  datatype Aead = Aead(
    seal: (seq<Byte>, seq<Byte>, seq<Byte>, seq<Byte>) -> seq<Byte>,
    open: (seq<Byte>, seq<Byte>, seq<Byte>, seq<Byte>) -> Option<seq<Byte>>)

  /** What is sealed opens, under the same key, nonce and associated data. */
  ghost predicate Correct(a: Aead) {
    forall key, nonce, aad, msg :: a.open(key, nonce, aad, a.seal(key, nonce, aad, msg)) == Some(msg)
  }

  datatype CryptoError =
    | UnsupportedVersion(version: nat)
    | InvalidEncoding
    | WrongNonceLength(actual: nat)
    | DecryptionFailed

  datatype Opened = Plain(bytes: seq<Byte>) | Refused(error: CryptoError)

  function AadTail(index: U32, total: U32): (b: seq<Byte>)
    ensures |b| == 10
  {
    COLON + BigEndian(index, 4) + COLON + BigEndian(total, 4)
  }

  function ChunkAad(version: U32, id: seq<Byte>, index: U32, total: U32): seq<Byte> {
    AAD_PREFIX + (BigEndian(version, 4) + (COLON + (id + AadTail(index, total))))
  }

  method BuildChunkAad(version: U32, id: seq<Byte>, index: U32, total: U32) returns (aad: seq<Byte>)
    ensures aad == ChunkAad(version, id, index, total)
  {
    aad := AAD_PREFIX;
    aad := aad + BigEndian(version, 4);
    aad := aad + COLON;
    aad := aad + id;
    ghost var head := aad;
    aad := aad + COLON;
    aad := aad + BigEndian(index, 4);
    aad := aad + COLON;
    aad := aad + BigEndian(total, 4);
    AppendFour(head, COLON, BigEndian(index, 4), COLON, BigEndian(total, 4));
    HeadFirst(AAD_PREFIX, BigEndian(version, 4), COLON, id, AadTail(index, total));
  }

  lemma AppendFour(head: seq<Byte>, a: seq<Byte>, b: seq<Byte>, c: seq<Byte>, d: seq<Byte>)
    ensures head + a + b + c + d == head + (a + b + c + d)
  {
    assert head + (a + b + c) == head + a + b + c;
  }

  lemma HeadFirst(a: seq<Byte>, b: seq<Byte>, c: seq<Byte>, d: seq<Byte>, e: seq<Byte>)
    ensures a + b + c + d + e == a + (b + (c + (d + e)))
  {}

  lemma AadTailIsInjective(i: U32, t: U32, i': U32, t': U32)
    requires AadTail(i, t) == AadTail(i', t')
    ensures i == i' && t == t'
  {
    Cancel(COLON + BigEndian(i, 4) + COLON, BigEndian(t, 4), COLON + BigEndian(i', 4) + COLON, BigEndian(t', 4));
    Cancel(COLON + BigEndian(i, 4), COLON, COLON + BigEndian(i', 4), COLON);
    Cancel(COLON, BigEndian(i, 4), COLON, BigEndian(i', 4));
    U32IsInjective(i, i');
    U32IsInjective(t, t');
  }

  /** The associated data determines all four fields, although the id has any length and may hold colons. */
  lemma AadIsInjective(v: U32, id: seq<Byte>, i: U32, t: U32, v': U32, id': seq<Byte>, i': U32, t': U32)
    requires ChunkAad(v, id, i, t) == ChunkAad(v', id', i', t')
    ensures v == v' && id == id' && i == i' && t == t'
  {
    var tail, tail' := AadTail(i, t), AadTail(i', t');
    Cancel(AAD_PREFIX, BigEndian(v, 4) + (COLON + (id + tail)), AAD_PREFIX, BigEndian(v', 4) + (COLON + (id' + tail')));
    Cancel(BigEndian(v, 4), COLON + (id + tail), BigEndian(v', 4), COLON + (id' + tail'));
    Cancel(COLON, id + tail, COLON, id' + tail');
    assert |id + tail| == |id| + 10 && |id' + tail'| == |id'| + 10;
    Cancel(id, tail, id', tail');
    U32IsInjective(v, v');
    AadTailIsInjective(i, t, i', t');
  }

  function EncryptChunk(a: Aead, key: seq<Byte>, nonce: seq<Byte>, plaintext: seq<Byte>, id: Utf8, index: U32,
                        total: U32)
    : EncryptedChunk
  {
    EncryptedChunk(CHUNK_VERSION, id, index, total, Encode(nonce, STANDARD),
                   Encode(a.seal(key, nonce, ChunkAad(CHUNK_VERSION, id, index, total), plaintext), STANDARD))
  }

  /** What the cipher is given to open: nonce, associated data and ciphertext. */
  datatype Sealed = Sealed(nonce: seq<Byte>, aad: seq<Byte>, ct: seq<Byte>)

  datatype Unpacked = Unpacked(sealed: Sealed) | Malformed(error: CryptoError)

  function Unpack(c: EncryptedChunk): Unpacked {
    var nonce, ct := Decode(c.nonce, STANDARD), Decode(c.ciphertext, STANDARD);
    if c.version != CHUNK_VERSION then Malformed(UnsupportedVersion(c.version))
    else if nonce.None? || |nonce.value| > NONCE_LEN then Malformed(InvalidEncoding)
    else if |nonce.value| != NONCE_LEN then Malformed(WrongNonceLength(|nonce.value|))
    else if ct.None? then Malformed(InvalidEncoding)
    else Unpacked(Sealed(nonce.value, ChunkAad(c.version, c.attachmentId, c.chunkIndex, c.totalChunks), ct.value))
  }

  function DecryptChunk(a: Aead, key: seq<Byte>, c: EncryptedChunk): Opened {
    match Unpack(c)
    case Malformed(error) => Refused(error)
    case Unpacked(s) =>
      var plain := a.open(key, s.nonce, s.aad, s.ct);
      if plain.None? then Refused(DecryptionFailed) else Plain(plain.value)
  }

  lemma EncryptedUnpacks(a: Aead, key: seq<Byte>, nonce: seq<Byte>, plaintext: seq<Byte>, id: Utf8, index: U32,
                         total: U32)
    requires |nonce| == NONCE_LEN
    ensures var aad := ChunkAad(CHUNK_VERSION, id, index, total);
            Unpack(EncryptChunk(a, key, nonce, plaintext, id, index, total))
              == Unpacked(Sealed(nonce, aad, a.seal(key, nonce, aad, plaintext)))
  {
    DecodeInvertsEncode(nonce, STANDARD);
    DecodeInvertsEncode(a.seal(key, nonce, ChunkAad(CHUNK_VERSION, id, index, total), plaintext), STANDARD);
  }

  lemma DecryptInvertsEncrypt(a: Aead, key: seq<Byte>, nonce: seq<Byte>, plaintext: seq<Byte>, id: Utf8, index: U32,
                              total: U32)
    requires Correct(a) && |nonce| == NONCE_LEN
    ensures DecryptChunk(a, key, EncryptChunk(a, key, nonce, plaintext, id, index, total)) == Plain(plaintext)
  {
    EncryptedUnpacks(a, key, nonce, plaintext, id, index, total);
  }

  /** A chunk that opens is determined by what the cipher authenticated: nothing in it can be altered alone. */
  lemma SealFixesChunk(c: EncryptedChunk, d: EncryptedChunk)
    requires Unpack(c).Unpacked? && Unpack(c) == Unpack(d)
    ensures c == d
  {
    EncodeInvertsDecode(c.nonce, STANDARD);
    EncodeInvertsDecode(d.nonce, STANDARD);
    EncodeInvertsDecode(c.ciphertext, STANDARD);
    EncodeInvertsDecode(d.ciphertext, STANDARD);
    AadIsInjective(c.version, c.attachmentId, c.chunkIndex, c.totalChunks,
                   d.version, d.attachmentId, d.chunkIndex, d.totalChunks);
  }

  datatype Binary =
    | Chunk(index: U32, total: U32, plaintext: seq<Byte>)
    | BadWire(format: FormatError)
    | BadChunk(crypto: CryptoError)

  function DecryptBinary(a: Aead, key: seq<Byte>, bytes: seq<Byte>): Binary {
    match Parse(bytes)
    case Err(e) => BadWire(e)
    case Ok(c) =>
      match DecryptChunk(a, key, c)
      case Refused(e) => BadChunk(e)
      case Plain(p) => Chunk(c.chunkIndex, c.totalChunks, p)
  }

  /** Encrypting to wire bytes and decrypting them gives back index, total and plaintext, whatever follows them. */
  lemma BinaryRoundTrip(a: Aead, key: seq<Byte>, nonce: seq<Byte>, plaintext: seq<Byte>, id: Utf8, index: U32,
                        total: U32, extra: seq<Byte>)
    requires Correct(a) && |nonce| == NONCE_LEN && |id| < U16_LIMIT
    requires |a.seal(key, nonce, ChunkAad(CHUNK_VERSION, id, index, total), plaintext)| < U32_LIMIT
    ensures var wire := Serialized(EncryptChunk(a, key, nonce, plaintext, id, index, total));
            wire.Ok? && DecryptBinary(a, key, wire.value + extra) == Chunk(index, total, plaintext)
  {
    var c := EncryptChunk(a, key, nonce, plaintext, id, index, total);
    DecryptInvertsEncrypt(a, key, nonce, plaintext, id, index, total);
    EncryptedFits(a, key, nonce, plaintext, id, index, total);
    EncodingDecodes(c, Serialized(c).value + extra);
  }

  lemma EncryptedFits(a: Aead, key: seq<Byte>, nonce: seq<Byte>, plaintext: seq<Byte>, id: Utf8, index: U32, total: U32)
    requires |nonce| == NONCE_LEN && |id| < U16_LIMIT
    requires |a.seal(key, nonce, ChunkAad(CHUNK_VERSION, id, index, total), plaintext)| < U32_LIMIT
    ensures Fits(EncryptChunk(a, key, nonce, plaintext, id, index, total))
  {
    DecodeInvertsEncode(nonce, STANDARD);
    DecodeInvertsEncode(a.seal(key, nonce, ChunkAad(CHUNK_VERSION, id, index, total), plaintext), STANDARD);
  }

  /** Why a chunk does not open, in the order of the checks. */
  lemma RefusalsExactly(a: Aead, key: seq<Byte>, c: EncryptedChunk)
    ensures var r, nonce, ct := DecryptChunk(a, key, c), Decode(c.nonce, STANDARD), Decode(c.ciphertext, STANDARD);
            && (c.version != 1 <==> r == Refused(UnsupportedVersion(c.version)))
            && (c.version == 1 && nonce.Some? && |nonce.value| < 24 <==> r.Refused? && r.error.WrongNonceLength?)
            && (c.version == 1 && (nonce.None? || |nonce.value| > 24 || (|nonce.value| == 24 && ct.None?))
                <==> r == Refused(InvalidEncoding))
            && (r.Plain? ==> c.version == 1 && nonce.Some? && |nonce.value| == 24 && ct.Some?)
  {}

  /** The associated data place by place: after the prefix and the version the id, and behind it index and total. */
  lemma AadFields(version: U32, id: seq<Byte>, index: U32, total: U32)
    ensures var aad := ChunkAad(version, id, index, total);
            && |aad| == 39 + |id|
            && (forall i :: 0 <= i < 24 ==> aad[i] == "zk-attachment-chunk-aad:"[i] as int)
            && aad[24..28] == BigEndian(version, 4)
            && aad[28] == 0x3A && aad[29..29 + |id|] == id && aad[29 + |id|] == 0x3A
            && aad[30 + |id|..34 + |id|] == BigEndian(index, 4) && aad[34 + |id|] == 0x3A
            && aad[35 + |id|..] == BigEndian(total, 4)
  {
    var aad := ChunkAad(version, id, index, total);
    AadPlaces(AAD_PREFIX, BigEndian(version, 4), id, BigEndian(index, 4), BigEndian(total, 4));
    assert forall i :: 0 <= i < 24 ==> aad[i] == aad[..24][i];
    PrefixIsText();
  }

  lemma AadPlaces(p: seq<Byte>, v: seq<Byte>, id: seq<Byte>, i: seq<Byte>, t: seq<Byte>)
    requires |p| == 24 && |v| == |i| == |t| == 4
    ensures var aad := p + (v + (COLON + (id + (COLON + i + COLON + t))));
            && |aad| == 39 + |id| && aad[..24] == p && aad[24..28] == v && aad[28] == 0x3A && aad[29..29 + |id|] == id
            && aad[29 + |id|] == 0x3A && aad[30 + |id|..34 + |id|] == i && aad[34 + |id|] == 0x3A
            && aad[35 + |id|..] == t
  {}

  lemma PrefixIsText()
    ensures forall i :: 0 <= i < 24 ==> AAD_PREFIX[i] == "zk-attachment-chunk-aad:"[i] as int
  {}
}
