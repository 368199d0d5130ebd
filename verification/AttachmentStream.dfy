/**
 * Streaming encryption and decryption of attachments.
 *
 * The encryptor fills one buffer after another from a reader that may return fewer bytes than asked for; the
 * decryptor checks order, count, identity, size and hash. Whatever the short reads, the chunks are the slices of
 * the stream; and no list of chunks but the original one is accepted.
 */
module AttachmentStream {
  import opened Text
  import opened Bytes
  import opened ChunkWire
  import opened ChunkCrypto

  const MAX_SIZE: nat := 104_857_600

  datatype Params = Params(attachmentId: Utf8, name: string, mime: string, chunkSize: nat)

  datatype Manifest = Manifest(
    attachmentId: Utf8,
    name: string,
    mime: string,
    size: nat,
    chunkCount: U32,
    chunkSize: U32,
    contentHash: Option<string>)

  datatype StreamError =
    | FileTooLarge(max: nat, actual: nat)
    | SizeMismatch(expected: nat, actual: nat)
    | ChunkOutOfOrder(expected: nat, actual: nat)
    | ChunkCountMismatch(expected: nat, actual: nat)
    | AttachmentIdMismatch(expectedId: Utf8, actualId: Utf8)
    | HashMismatch(expectedHash: string, actualHash: string)
    | Undecryptable(reason: CryptoError)

  datatype Finished<+T> = Success(value: T) | Failure(error: StreamError)

  /** Key, cipher, nonces and the digest of the plaintext; nonces come from the system's generator. */
  datatype Job = Job(
    aead: Aead,
    key: seq<Byte>,
    nonces: nat -> seq<Byte>,
    digest: seq<Byte> -> string)

  function Min(a: nat, b: nat): nat {
    if a <= b then a else b
  }

  /** Rounded-up quotient, cut to 32 bits; one chunk for an empty file. */
  function ChunkCount(size: nat, chunkSize: nat): U32
    requires size > 0 ==> chunkSize > 0
  {
    if size == 0 then 1 else (size + chunkSize - 1) / chunkSize % U32_LIMIT
  }

  lemma CeilingCovers(size: nat, chunkSize: nat, n: nat)
    requires size > 0 && chunkSize > 0 && n == (size + chunkSize - 1) / chunkSize
    ensures 0 < n <= size && (n - 1) * chunkSize < size <= n * chunkSize
  {
    assert size + chunkSize - 1 == n * chunkSize + (size + chunkSize - 1) % chunkSize;
    assert (n - 1) * chunkSize == n * chunkSize - chunkSize;
    AtLeast(n - 1, chunkSize);
  }

  lemma AtLeast(a: nat, b: nat)
    requires b > 0
    ensures a <= a * b
  {
    assert a * b == a + a * (b - 1);
  }

  lemma CountIsCeiling(size: nat, chunkSize: nat, n: nat)
    requires 0 < size <= MAX_SIZE && chunkSize > 0 && n == (size + chunkSize - 1) / chunkSize && n <= size
    ensures ChunkCount(size, chunkSize) == n
  {
    assert n % U32_LIMIT == n;
  }

  /** The chunks are just enough: all but the last are not, all together are. */
  lemma ChunkCountCovers(size: nat, chunkSize: nat)
    requires 0 < size <= MAX_SIZE && chunkSize > 0
    ensures var n := ChunkCount(size, chunkSize); 0 < n && (n - 1) * chunkSize < size <= n * chunkSize
  {
    var n := (size + chunkSize - 1) / chunkSize;
    CeilingCovers(size, chunkSize, n);
    CountIsCeiling(size, chunkSize, n);
  }

  // ---------------------------------------------------------------- slices of the stream

  /** Where chunk `i` starts in a stream of `len` bytes. */
  function CutAt(i: nat, chunkSize: nat, len: nat): (n: nat)
    ensures n <= len
  {
    Min(i * chunkSize, len)
  }

  lemma NextCut(i: nat, chunkSize: nat, len: nat)
    ensures CutAt(i + 1, chunkSize, len) == CutAt(i, chunkSize, len) + Min(chunkSize, len - CutAt(i, chunkSize, len))
  {
    assert (i + 1) * chunkSize == i * chunkSize + chunkSize;
  }

  lemma CutsGrow(i: nat, j: nat, chunkSize: nat, len: nat)
    requires i <= j
    ensures CutAt(i, chunkSize, len) <= CutAt(j, chunkSize, len)
  {
    assert j * chunkSize == i * chunkSize + (j - i) * chunkSize;
  }

  function Slice(data: seq<Byte>, i: nat, chunkSize: nat): seq<Byte> {
    CutsGrow(i, i + 1, chunkSize, |data|);
    data[CutAt(i, chunkSize, |data|)..CutAt(i + 1, chunkSize, |data|)]
  }

  /** The `i`-th chunk of an attachment of `count` chunks. */
  function ChunkAt(job: Job, id: Utf8, data: seq<Byte>, chunkSize: nat, i: U32, count: U32): EncryptedChunk {
    EncryptChunk(job.aead, job.key, job.nonces(i), Slice(data, i, chunkSize), id, i, count)
  }

  /** `chunks` are the first chunks of the attachment, in order. */
  ghost predicate AreChunks(job: Job, id: Utf8, data: seq<Byte>, chunkSize: nat, count: U32,
                            chunks: seq<EncryptedChunk>) {
    && |chunks| <= count
    && forall i: U32 :: i < |chunks| ==> chunks[i] == ChunkAt(job, id, data, chunkSize, i, count)
  }

  // ---------------------------------------------------------------- the reader

  /** A byte stream that answers each read with at least one byte while any are left, `pace` deciding how many. */
  class Reader {
    var rest: seq<Byte>
    var calls: nat
    const pace: nat -> nat

    constructor (data: seq<Byte>, pace: nat -> nat)
      ensures rest == data && this.pace == pace
    {
      rest, calls := data, 0;
      this.pace := pace;
    }

    method Read(buffer: array<Byte>, from: nat) returns (n: nat)
      requires from <= buffer.Length
      modifies this, buffer
      ensures n <= buffer.Length - from && n <= |old(rest)|
      ensures n == 0 <==> from == buffer.Length || old(rest) == []
      ensures rest == old(rest)[n..]
      ensures buffer[..from] == old(buffer[..from]) && buffer[from..from + n] == old(rest)[..n]
    {
      var most := Min(buffer.Length - from, |rest|);
      n := if most == 0 then 0 else 1 + pace(calls) % most;
      forall i | 0 <= i < n {
        buffer[from + i] := rest[i];
      }
      rest := rest[n..];
      calls := calls + 1;
    }
  }

  /** The inner loop: reads until the buffer is full or the stream is at its end. */
  method FillBuffer(reader: Reader, buffer: array<Byte>) returns (filled: nat)
    modifies reader, buffer
    ensures filled == Min(buffer.Length, |old(reader.rest)|)
    ensures buffer[..filled] == old(reader.rest)[..filled] && reader.rest == old(reader.rest)[filled..]
  {
    ghost var data := reader.rest;
    filled := 0;
    while filled < buffer.Length
      invariant filled <= buffer.Length && filled <= |data|
      invariant buffer[..filled] == data[..filled] && reader.rest == data[filled..]
      decreases buffer.Length - filled
    {
      var n := reader.Read(buffer, filled);
      assert buffer[..filled + n] == buffer[..filled] + buffer[filled..filled + n];
      assert data[..filled + n] == data[..filled] + data[filled..][..n];
      if n == 0 {
        break;
      }
      filled := filled + n;
    }
  }

  // ---------------------------------------------------------------- encryption

  function ManifestFor(job: Job, p: Params, data: seq<Byte>): Manifest
    requires |data| > 0 ==> p.chunkSize > 0
  {
    Manifest(p.attachmentId, p.name, p.mime, |data|, ChunkCount(|data|, p.chunkSize), p.chunkSize % U32_LIMIT,
             Some(job.digest(data)))
  }

  /** How many bytes of a stream of `len` the encryptor reads at most. */
  function Reached(len: nat, totalSize: nat, chunkSize: nat): nat
    requires totalSize > 0 ==> chunkSize > 0
  {
    CutAt(ChunkCount(totalSize, chunkSize), chunkSize, len)
  }

  /** Reading on by one buffer: what was read so far, the piece, and what is left. */
  lemma NextSlice(data: seq<Byte>, i: nat, chunkSize: nat)
    ensures var cut, next := CutAt(i, chunkSize, |data|), CutAt(i + 1, chunkSize, |data|);
            var n := Min(chunkSize, |data| - cut);
            && next == cut + n
            && data[cut..][..n] == Slice(data, i, chunkSize)
            && data[cut..][n..] == data[next..]
            && data[..cut] + Slice(data, i, chunkSize) == data[..next]
  {
    NextCut(i, chunkSize, |data|);
  }

  lemma OneMoreChunk(job: Job, id: Utf8, data: seq<Byte>, chunkSize: nat, count: U32, chunks: seq<EncryptedChunk>,
                     i: U32)
    requires AreChunks(job, id, data, chunkSize, count, chunks) && |chunks| == i < count
    ensures AreChunks(job, id, data, chunkSize, count, chunks + [ChunkAt(job, id, data, chunkSize, i, count)])
  {}

  /** The state of the loop after `index` chunks. */
  ghost predicate ReadSoFar(data: seq<Byte>, index: nat, chunkSize: nat, hashed: seq<Byte>, rest: seq<Byte>) {
    var cut := CutAt(index, chunkSize, |data|);
    hashed == data[..cut] && rest == data[cut..]
  }

  lemma OneMorePiece(data: seq<Byte>, index: nat, chunkSize: nat, hashed: seq<Byte>, rest: seq<Byte>, filled: nat)
    requires ReadSoFar(data, index, chunkSize, hashed, rest) && filled == Min(chunkSize, |rest|) && chunkSize > 0
    ensures rest[..filled] == Slice(data, index, chunkSize)
    ensures ReadSoFar(data, index + 1, chunkSize, hashed + rest[..filled], rest[filled..])
    ensures filled == 0 ==> CutAt(index, chunkSize, |data|) == |data|
  {
    NextSlice(data, index, chunkSize);
  }

  /** The outer loop: `hashed` is what went through the running hash. */
  method EncryptChunks(job: Job, reader: Reader, p: Params, count: U32)
    returns (tooLarge: bool, hashed: seq<Byte>, chunks: seq<EncryptedChunk>)
    requires p.chunkSize > 0
    modifies reader
    ensures AreChunks(job, p.attachmentId, old(reader.rest), p.chunkSize, count, chunks)
    ensures tooLarge ==> ReadSoFar(old(reader.rest), |chunks| + 1, p.chunkSize, hashed, reader.rest)
    ensures tooLarge ==> |chunks| < count && CutAt(|chunks|, p.chunkSize, |old(reader.rest)|) <= MAX_SIZE < |hashed|
    ensures !tooLarge ==> |hashed| <= MAX_SIZE && |hashed| == CutAt(count, p.chunkSize, |old(reader.rest)|)
    ensures !tooLarge ==> ReadSoFar(old(reader.rest), |chunks|, p.chunkSize, hashed, reader.rest)
  {
    ghost var data := reader.rest;
    var buffer := new Byte[p.chunkSize](_ => 0);
    tooLarge, hashed, chunks := false, [], [];
    var index: nat := 0;
    while index < count
      invariant index <= count && |chunks| == index
      invariant fresh(buffer) && buffer.Length == p.chunkSize
      invariant ReadSoFar(data, index, p.chunkSize, hashed, reader.rest) && |hashed| <= MAX_SIZE
      invariant AreChunks(job, p.attachmentId, data, p.chunkSize, count, chunks)
    {
      ghost var rest := reader.rest;
      var filled := FillBuffer(reader, buffer);
      var piece := buffer[..filled];
      OneMorePiece(data, index, p.chunkSize, hashed, rest, filled);
      if filled == 0 && index > 0 {
        assert rest[0..] == rest;
        break;
      }
      if |hashed + piece| > MAX_SIZE {
        hashed := hashed + piece;
        tooLarge := true;
        return;
      }
      hashed := hashed + piece;
      OneMoreChunk(job, p.attachmentId, data, p.chunkSize, count, chunks, index);
      chunks := chunks + [EncryptChunk(job.aead, job.key, job.nonces(index), piece, p.attachmentId, index, count)];
      index := index + 1;
    }
    StoppedEarly(index, count, p.chunkSize, |data|);
  }

  /** A chunk past the limit means the chunks together are past it. */
  lemma TooLargeAlready(chunks: nat, count: nat, chunkSize: nat, len: nat)
    requires chunks < count && CutAt(chunks + 1, chunkSize, len) > MAX_SIZE
    ensures CutAt(count, chunkSize, len) > MAX_SIZE
  {
    CutsGrow(chunks + 1, count, chunkSize, len);
  }

  /** Past the end of the stream the cuts no longer move. */
  lemma StoppedEarly(index: nat, count: nat, chunkSize: nat, len: nat)
    requires index <= count
    ensures CutAt(index, chunkSize, len) == len ==> CutAt(count, chunkSize, len) == len
  {
    CutsGrow(index, count, chunkSize, len);
  }

  /**
   * Succeeds exactly when the declared size is what the chunks reach of the stream; the chunks are then its
   * slices. It stops at the chunk that passes the size limit. A declared size of 0 never reads the stream.
   */
  method EncryptStream(job: Job, reader: Reader, totalSize: nat, p: Params)
    returns (r: Finished<Manifest>, chunks: seq<EncryptedChunk>)
    requires 0 < totalSize <= MAX_SIZE ==> p.chunkSize > 0
    modifies reader
    ensures totalSize > MAX_SIZE ==> r == Failure(FileTooLarge(MAX_SIZE, totalSize)) && chunks == []
    ensures totalSize == 0 ==>
              r == Success(ManifestFor(job, p, [])) && chunks == [ChunkAt(job, p.attachmentId, [], p.chunkSize, 0, 1)]
    ensures 0 < totalSize <= MAX_SIZE ==>
              var data, count := old(reader.rest), ChunkCount(totalSize, p.chunkSize);
              var reached := Reached(|data|, totalSize, p.chunkSize);
              && AreChunks(job, p.attachmentId, data, p.chunkSize, count, chunks)
              && (if reached > MAX_SIZE then
                    && CutAt(|chunks|, p.chunkSize, |data|) <= MAX_SIZE < CutAt(|chunks| + 1, p.chunkSize, |data|)
                    && r == Failure(FileTooLarge(MAX_SIZE, CutAt(|chunks| + 1, p.chunkSize, |data|)))
                  else if reached != totalSize then r == Failure(SizeMismatch(totalSize, reached))
                  else r == Success(ManifestFor(job, p, data[..totalSize])) && |chunks| == count)
  {
    chunks := [];
    if totalSize > MAX_SIZE {
      r := Failure(FileTooLarge(MAX_SIZE, totalSize));
      return;
    }
    var count := ChunkCount(totalSize, p.chunkSize);
    if totalSize == 0 {
      assert Slice([], 0, p.chunkSize) == [];
      chunks := [EncryptChunk(job.aead, job.key, job.nonces(0), [], p.attachmentId, 0, 1)];
      r := Success(Manifest(p.attachmentId, p.name, p.mime, 0, 1, p.chunkSize % U32_LIMIT, Some(job.digest([]))));
      return;
    }
    var tooLarge, hashed;
    tooLarge, hashed, chunks := EncryptChunks(job, reader, p, count);
    if tooLarge {
      TooLargeAlready(|chunks|, count, p.chunkSize, |old(reader.rest)|);
      r := Failure(FileTooLarge(MAX_SIZE, |hashed|));
      return;
    }
    if |hashed| != totalSize {
      r := Failure(SizeMismatch(totalSize, |hashed|));
      return;
    }
    AllChunksWereNeeded(totalSize, p.chunkSize, |chunks|, |old(reader.rest)|);
    r := Success(Manifest(p.attachmentId, p.name, p.mime, totalSize, count, p.chunkSize % U32_LIMIT,
                          Some(job.digest(hashed))));
  }

  lemma AllChunksWereNeeded(size: nat, chunkSize: nat, n: nat, len: nat)
    requires 0 < size <= MAX_SIZE && chunkSize > 0 && n <= ChunkCount(size, chunkSize)
    requires CutAt(n, chunkSize, len) == size
    ensures n == ChunkCount(size, chunkSize)
  {
    ChunkCountCovers(size, chunkSize);
    TimesGrows(n, ChunkCount(size, chunkSize) - 1, chunkSize);
  }

  lemma TimesGrows(a: nat, b: nat, c: nat)
    ensures a <= b ==> a * c <= b * c
  {
    assert b * c == a * c + (b - a) * c;
  }

  // ---------------------------------------------------------------- decryption

  function PlainOf(job: Job, c: EncryptedChunk): seq<Byte> {
    match DecryptChunk(job.aead, job.key, c)
    case Plain(bytes) => bytes
    case Refused(_) => []
  }

  /** The plaintexts of the chunks, one after the other. */
  function Joined(job: Job, chunks: seq<EncryptedChunk>): seq<Byte> {
    if chunks == [] then [] else Joined(job, chunks[..|chunks| - 1]) + PlainOf(job, chunks[|chunks| - 1])
  }

  predicate MatchesManifest(c: EncryptedChunk, manifest: Option<Manifest>) {
    manifest.Some? ==> c.attachmentId == manifest.value.attachmentId && c.totalChunks == manifest.value.chunkCount
  }

  /** Chunk `i` is in its place, agrees with the first one and with the manifest, and opens. */
  predicate GoodChunk(job: Job, chunks: seq<EncryptedChunk>, manifest: Option<Manifest>, i: nat)
    requires i < |chunks|
  {
    && chunks[i].chunkIndex == i
    && chunks[i].totalChunks == chunks[0].totalChunks
    && MatchesManifest(chunks[i], manifest)
    && DecryptChunk(job.aead, job.key, chunks[i]).Plain?
  }

  ghost predicate GoodUpTo(job: Job, chunks: seq<EncryptedChunk>, manifest: Option<Manifest>, n: nat)
    requires n <= |chunks|
  {
    forall i :: 0 <= i < n ==> GoodChunk(job, chunks, manifest, i)
  }

  predicate BodyMatches(job: Job, body: seq<Byte>, manifest: Option<Manifest>) {
    manifest.Some? ==>
      && |body| == manifest.value.size
      && (manifest.value.contentHash.Some? ==> job.digest(body) == manifest.value.contentHash.value)
  }

  /** The lists of chunks the decryptor accepts. */
  ghost predicate Accepted(job: Job, chunks: seq<EncryptedChunk>, manifest: Option<Manifest>) {
    && chunks != [] && |chunks| == chunks[0].totalChunks
    && GoodUpTo(job, chunks, manifest, |chunks|)
    && BodyMatches(job, Joined(job, chunks), manifest)
  }

  /** `None` if chunk number `expected` passes all checks before decryption, else the first that fails. */
  function HeaderError(c: EncryptedChunk, expected: nat, total: Option<U32>,
                       manifest: Option<Manifest>): Option<StreamError> {
    if c.chunkIndex != expected then Some(ChunkOutOfOrder(expected, c.chunkIndex))
    else if total.Some? && c.totalChunks != total.value then Some(ChunkCountMismatch(total.value, c.totalChunks))
    else if manifest.Some? && c.attachmentId != manifest.value.attachmentId then
      Some(AttachmentIdMismatch(manifest.value.attachmentId, c.attachmentId))
    else if manifest.Some? && c.totalChunks != manifest.value.chunkCount then
      Some(ChunkCountMismatch(manifest.value.chunkCount, c.totalChunks))
    else None
  }

  function ChunkError(job: Job, c: EncryptedChunk, expected: nat, total: Option<U32>, manifest: Option<Manifest>)
    : Option<StreamError>
  {
    var header := HeaderError(c, expected, total, manifest);
    if header.Some? then header
    else
      match DecryptChunk(job.aead, job.key, c)
      case Plain(_) => None
      case Refused(reason) => Some(Undecryptable(reason))
  }

  /** The plaintext of some first chunks, all of them good. */
  ghost predicate GoodPrefix(job: Job, chunks: seq<EncryptedChunk>, manifest: Option<Manifest>, written: seq<Byte>) {
    exists n: nat :: n <= |chunks| && GoodUpTo(job, chunks, manifest, n) && written == Joined(job, chunks[..n])
  }

  lemma JoinedNext(job: Job, chunks: seq<EncryptedChunk>, n: nat)
    requires n < |chunks|
    ensures Joined(job, chunks[..n + 1]) == Joined(job, chunks[..n]) + PlainOf(job, chunks[n])
  {
    assert chunks[..n + 1][..n] == chunks[..n];
  }

  lemma ChecksAreGood(job: Job, chunks: seq<EncryptedChunk>, manifest: Option<Manifest>, i: nat, total: Option<U32>)
    requires i < |chunks| && total == if i == 0 then None else Some(chunks[0].totalChunks)
    ensures GoodChunk(job, chunks, manifest, i) <==> ChunkError(job, chunks[i], i, total, manifest).None?
  {}

  /** The checks in the loop decide whether the chunk is good. */
  lemma ChecksDecide(job: Job, chunks: seq<EncryptedChunk>, manifest: Option<Manifest>, i: nat, total: Option<U32>)
    requires i < |chunks| && total == if i == 0 then None else Some(chunks[0].totalChunks)
    requires GoodUpTo(job, chunks, manifest, i)
    ensures if ChunkError(job, chunks[i], i, total, manifest).None? then
              && GoodUpTo(job, chunks, manifest, i + 1) && chunks[i].totalChunks == chunks[0].totalChunks
            else !GoodUpTo(job, chunks, manifest, |chunks|)
  {
    ChecksAreGood(job, chunks, manifest, i, total);
  }

  function TotalBefore(chunks: seq<EncryptedChunk>, i: nat): Option<U32> {
    if i == 0 || chunks == [] then None else Some(chunks[0].totalChunks)
  }

  /** Chunk `k` is the first that is not good, and `e` is the first of its checks that fails. */
  ghost predicate FirstBad(job: Job, chunks: seq<EncryptedChunk>, manifest: Option<Manifest>, k: nat, e: StreamError) {
    && k < |chunks| && GoodUpTo(job, chunks, manifest, k)
    && ChunkError(job, chunks[k], k, TotalBefore(chunks, k), manifest) == Some(e)
  }

  /** What is still wrong when all chunks are good: none at all, some missing, wrong size, wrong hash. */
  function FinalError(job: Job, chunks: seq<EncryptedChunk>, manifest: Option<Manifest>): Option<StreamError> {
    var body := Joined(job, chunks);
    if chunks == [] then Some(ChunkCountMismatch(1, 0))
    else if |chunks| != chunks[0].totalChunks then Some(ChunkCountMismatch(chunks[0].totalChunks, |chunks|))
    else if manifest.Some? && |body| != manifest.value.size then Some(SizeMismatch(manifest.value.size, |body|))
    else if manifest.Some? && manifest.value.contentHash.Some?
            && job.digest(body) != manifest.value.contentHash.value then
      Some(HashMismatch(manifest.value.contentHash.value, job.digest(body)))
    else None
  }

  /**
   * The error blames chunk `k`, the first that is not good, and says what is wrong with it: its place first, then the
   * count all chunks must share, the manifest's id and count, and last that it does not open.
   */
  ghost predicate Blames(job: Job, chunks: seq<EncryptedChunk>, manifest: Option<Manifest>, k: nat, e: StreamError) {
    && k < |chunks| && GoodUpTo(job, chunks, manifest, k)
    && var c := chunks[k];
       match e
       case ChunkOutOfOrder(expected, actual) => expected == k && actual == c.chunkIndex && actual != expected
       case ChunkCountMismatch(expected, actual) =>
         && c.chunkIndex == k && actual == c.totalChunks && actual != expected
         && (if c.totalChunks != chunks[0].totalChunks then expected == chunks[0].totalChunks
             else
               && manifest.Some? && expected == manifest.value.chunkCount
               && c.attachmentId == manifest.value.attachmentId)
       case AttachmentIdMismatch(expected, actual) =>
         && c.chunkIndex == k && c.totalChunks == chunks[0].totalChunks
         && manifest.Some? && expected == manifest.value.attachmentId && actual == c.attachmentId && actual != expected
       case Undecryptable(reason) =>
         && c.chunkIndex == k && c.totalChunks == chunks[0].totalChunks
         && (manifest.Some? ==> c.attachmentId == manifest.value.attachmentId)
         && (manifest.Some? ==> c.totalChunks == manifest.value.chunkCount)
         && DecryptChunk(job.aead, job.key, c) == Refused(reason)
       case _ => false
  }

  /** All chunks are good and the whole is not: no chunk, too few or too many, the wrong size, the wrong hash. */
  ghost predicate BlamesTheWhole(job: Job, chunks: seq<EncryptedChunk>, manifest: Option<Manifest>, e: StreamError) {
    && GoodUpTo(job, chunks, manifest, |chunks|)
    && match e
       case ChunkCountMismatch(expected, actual) =>
         && expected == (if chunks == [] then 1 else chunks[0].totalChunks)
         && actual == |chunks| && (chunks == [] || actual != expected)
       case SizeMismatch(expected, actual) =>
         && chunks != [] && |chunks| == chunks[0].totalChunks && manifest.Some?
         && expected == manifest.value.size && actual == |Joined(job, chunks)| && actual != expected
       case HashMismatch(expected, actual) =>
         && chunks != [] && |chunks| == chunks[0].totalChunks && manifest.Some?
         && |Joined(job, chunks)| == manifest.value.size && manifest.value.contentHash == Some(expected)
         && actual == job.digest(Joined(job, chunks)) && actual != expected
       case _ => false
  }

  lemma FirstBadIsBlamed(job: Job, chunks: seq<EncryptedChunk>, manifest: Option<Manifest>, k: nat, e: StreamError)
    requires FirstBad(job, chunks, manifest, k, e)
    ensures Blames(job, chunks, manifest, k, e)
  {}

  lemma FinalErrorIsBlamed(job: Job, chunks: seq<EncryptedChunk>, manifest: Option<Manifest>, e: StreamError)
    requires GoodUpTo(job, chunks, manifest, |chunks|) && FinalError(job, chunks, manifest) == Some(e)
    ensures BlamesTheWhole(job, chunks, manifest, e)
  {}

  /** The loop over the chunks: stops at the first that is not good. */
  method DecryptChunks(job: Job, chunks: seq<EncryptedChunk>, manifest: Option<Manifest>)
    returns (failed: Option<StreamError>, total: Option<U32>, written: seq<Byte>)
    ensures failed.None? <==> GoodUpTo(job, chunks, manifest, |chunks|)
    ensures failed.Some? ==> exists k :: FirstBad(job, chunks, manifest, k, failed.value)
    ensures failed.None? ==>
              written == Joined(job, chunks) && total == if chunks == [] then None else Some(chunks[0].totalChunks)
    ensures GoodPrefix(job, chunks, manifest, written)
  {
    failed, total, written := None, None, [];
    var expected: nat := 0;
    while expected < |chunks|
      invariant expected <= |chunks| && failed.None?
      invariant total == if expected == 0 then None else Some(chunks[0].totalChunks)
      invariant GoodUpTo(job, chunks, manifest, expected)
      invariant written == Joined(job, chunks[..expected])
    {
      var chunk := chunks[expected];
      ChecksDecide(job, chunks, manifest, expected, total);
      failed := ChunkError(job, chunk, expected, total, manifest);
      if failed.Some? {
        assert FirstBad(job, chunks, manifest, expected, failed.value);
        return;
      }
      total := Some(chunk.totalChunks);
      JoinedNext(job, chunks, expected);
      written := written + PlainOf(job, chunk);
      expected := expected + 1;
    }
    assert chunks[..|chunks|] == chunks;
  }

  /**
   * Accepts exactly the lists `Accepted` describes and then has written their plaintext. What it has written when
   * it fails is the plaintext of a prefix of good chunks, never bytes that did not authenticate. The error is that
   * of the first chunk that is not good, or of the first final check that fails.
   */
  method DecryptStream(job: Job, chunks: seq<EncryptedChunk>, manifest: Option<Manifest>)
    returns (r: Finished<nat>, written: seq<Byte>)
    ensures r.Success? <==> Accepted(job, chunks, manifest)
    ensures r.Success? ==> written == Joined(job, chunks) && r.value == |written|
    ensures r.Failure? ==>
              if GoodUpTo(job, chunks, manifest, |chunks|) then FinalError(job, chunks, manifest) == Some(r.error)
              else exists k :: FirstBad(job, chunks, manifest, k, r.error)
    ensures r.Failure? ==>
              || BlamesTheWhole(job, chunks, manifest, r.error)
              || exists k :: Blames(job, chunks, manifest, k, r.error)
    ensures GoodPrefix(job, chunks, manifest, written)
  {
    var failed, total;
    failed, total, written := DecryptChunks(job, chunks, manifest);
    if failed.Some? {
      ghost var k :| FirstBad(job, chunks, manifest, k, failed.value);
      FirstBadIsBlamed(job, chunks, manifest, k, failed.value);
      return Failure(failed.value), written;
    }
    var wrong := CheckWhole(job, chunks, manifest, total, written);
    if wrong.Some? {
      FinalErrorIsBlamed(job, chunks, manifest, wrong.value);
      return Failure(wrong.value), written;
    }
    r := Success(|written|);
  }

  /** The checks after the last chunk. */
  method CheckWhole(job: Job, chunks: seq<EncryptedChunk>, manifest: Option<Manifest>, total: Option<U32>,
                    written: seq<Byte>)
    returns (wrong: Option<StreamError>)
    requires written == Joined(job, chunks) && total == if chunks == [] then None else Some(chunks[0].totalChunks)
    ensures wrong == FinalError(job, chunks, manifest)
  {
    if total.None? {
      return Some(ChunkCountMismatch(1, 0));
    }
    if |chunks| != total.value {
      return Some(ChunkCountMismatch(total.value, |chunks|));
    }
    if manifest.Some? {
      if |written| != manifest.value.size {
        return Some(SizeMismatch(manifest.value.size, |written|));
      }
      if manifest.value.contentHash.Some? && job.digest(written) != manifest.value.contentHash.value {
        return Some(HashMismatch(manifest.value.contentHash.value, job.digest(written)));
      }
    }
    return None;
  }

  // ---------------------------------------------------------------- there and back

  /** All chunks of an attachment of `count` chunks. */
  ghost predicate IsAttachment(job: Job, id: Utf8, data: seq<Byte>, chunkSize: nat, chunks: seq<EncryptedChunk>) {
    && |chunks| > 0 && |chunks| < U32_LIMIT
    && AreChunks(job, id, data, chunkSize, |chunks|, chunks)
  }

  ghost predicate GoodNonces(job: Job) {
    forall i :: |job.nonces(i)| == NONCE_LEN
  }

  lemma ChunkOpens(job: Job, id: Utf8, data: seq<Byte>, chunkSize: nat, chunks: seq<EncryptedChunk>, i: U32)
    requires IsAttachment(job, id, data, chunkSize, chunks) && Correct(job.aead) && GoodNonces(job) && i < |chunks|
    ensures chunks[i].chunkIndex == i && chunks[i].totalChunks == |chunks| && chunks[i].attachmentId == id
    ensures DecryptChunk(job.aead, job.key, chunks[i]) == Plain(Slice(data, i, chunkSize))
  {
    assert chunks[i] == ChunkAt(job, id, data, chunkSize, i, |chunks|);
    DecryptInvertsEncrypt(job.aead, job.key, job.nonces(i), Slice(data, i, chunkSize), id, i, |chunks|);
  }

  lemma {:induction false} JoinedIsPrefix(job: Job, id: Utf8, data: seq<Byte>, chunkSize: nat,
                                          chunks: seq<EncryptedChunk>, n: nat)
    requires IsAttachment(job, id, data, chunkSize, chunks) && Correct(job.aead) && GoodNonces(job) && n <= |chunks|
    ensures Joined(job, chunks[..n]) == data[..CutAt(n, chunkSize, |data|)]
  {
    if n > 0 {
      JoinedIsPrefix(job, id, data, chunkSize, chunks, n - 1);
      ChunkOpens(job, id, data, chunkSize, chunks, n - 1);
      NextSlice(data, n - 1, chunkSize);
      JoinedNext(job, chunks, n - 1);
    }
  }

  lemma AttachmentIsGood(job: Job, id: Utf8, data: seq<Byte>, chunkSize: nat, chunks: seq<EncryptedChunk>,
                         manifest: Option<Manifest>)
    requires IsAttachment(job, id, data, chunkSize, chunks) && Correct(job.aead) && GoodNonces(job)
    requires manifest.Some? ==> manifest.value.attachmentId == id && manifest.value.chunkCount == |chunks|
    ensures GoodUpTo(job, chunks, manifest, |chunks|)
  {
    ChunkOpens(job, id, data, chunkSize, chunks, 0);
    forall i | 0 <= i < |chunks| ensures GoodChunk(job, chunks, manifest, i) {
      ChunkOpens(job, id, data, chunkSize, chunks, i);
    }
  }

  /**
   * Whatever `EncryptStream` returns with success is accepted with its manifest, and decrypts to exactly the
   * declared bytes of the stream.
   */
  lemma DecryptRestoresTheFile(job: Job, p: Params, data: seq<Byte>, totalSize: nat, chunks: seq<EncryptedChunk>)
    requires Correct(job.aead) && GoodNonces(job)
    requires 0 < totalSize <= MAX_SIZE && p.chunkSize > 0 && Reached(|data|, totalSize, p.chunkSize) == totalSize
    requires AreChunks(job, p.attachmentId, data, p.chunkSize, ChunkCount(totalSize, p.chunkSize), chunks)
    requires |chunks| == ChunkCount(totalSize, p.chunkSize)
    ensures Accepted(job, chunks, Some(ManifestFor(job, p, data[..totalSize])))
    ensures Joined(job, chunks) == data[..totalSize]
  {
    ChunkCountCovers(totalSize, p.chunkSize);
    ChunkOpens(job, p.attachmentId, data, p.chunkSize, chunks, 0);
    AttachmentIsGood(job, p.attachmentId, data, p.chunkSize, chunks, Some(ManifestFor(job, p, data[..totalSize])));
    JoinedIsPrefix(job, p.attachmentId, data, p.chunkSize, chunks, |chunks|);
    assert chunks[..|chunks|] == chunks;
  }

  /** The same for an empty file: one empty chunk. */
  lemma DecryptRestoresTheEmptyFile(job: Job, p: Params)
    requires Correct(job.aead) && GoodNonces(job)
    ensures var chunks := [ChunkAt(job, p.attachmentId, [], p.chunkSize, 0, 1)];
            Accepted(job, chunks, Some(ManifestFor(job, p, []))) && Joined(job, chunks) == []
  {
    var chunks := [ChunkAt(job, p.attachmentId, [], p.chunkSize, 0, 1)];
    assert IsAttachment(job, p.attachmentId, [], p.chunkSize, chunks);
    AttachmentIsGood(job, p.attachmentId, [], p.chunkSize, chunks, Some(ManifestFor(job, p, [])));
    ChunkOpens(job, p.attachmentId, [], p.chunkSize, chunks, 0);
    JoinedIsPrefix(job, p.attachmentId, [], p.chunkSize, chunks, 1);
    assert chunks[..1] == chunks;
  }

  // ---------------------------------------------------------------- tampering

  /** No forgery: of what is presented, the key opens only what was sealed for this attachment. */
  ghost predicate NothingForged(job: Job, original: seq<EncryptedChunk>, presented: seq<EncryptedChunk>) {
    forall k :: 0 <= k < |presented| && DecryptChunk(job.aead, job.key, presented[k]).Plain? ==>
      SealedFor(original, presented[k])
  }

  ghost predicate SealedFor(original: seq<EncryptedChunk>, c: EncryptedChunk) {
    exists j :: 0 <= j < |original| && Unpack(original[j]) == Unpack(c)
  }

  lemma EachChunkIsOriginal(job: Job, id: Utf8, data: seq<Byte>, chunkSize: nat, original: seq<EncryptedChunk>,
                            presented: seq<EncryptedChunk>, manifest: Option<Manifest>, k: nat)
    requires IsAttachment(job, id, data, chunkSize, original) && NothingForged(job, original, presented)
    requires k < |presented| && GoodChunk(job, presented, manifest, k)
    ensures k < |original| && presented[k] == original[k] && presented[k].totalChunks == |original|
  {
    assert SealedFor(original, presented[k]);
    var j: nat :| j < |original| && Unpack(original[j]) == Unpack(presented[k]);
    SealFixesChunk(presented[k], original[j]);
    assert original[j] == ChunkAt(job, id, data, chunkSize, j, |original|);
  }

  /**
   * If the key sealed one attachment once and nothing is forged, the only list of chunks the decryptor accepts,
   * with any manifest or none, is the original one: no reordering, truncation, duplication or altered index.
   */
  lemma OnlyTheOriginalIsAccepted(job: Job, id: Utf8, data: seq<Byte>, chunkSize: nat, original: seq<EncryptedChunk>,
                                  presented: seq<EncryptedChunk>, manifest: Option<Manifest>)
    requires IsAttachment(job, id, data, chunkSize, original) && Correct(job.aead) && GoodNonces(job)
    requires NothingForged(job, original, presented) && Accepted(job, presented, manifest)
    ensures presented == original
    ensures Joined(job, presented) == data[..CutAt(|original|, chunkSize, |data|)]
  {
    forall k | 0 <= k < |presented|
      ensures k < |original| && presented[k] == original[k] && presented[k].totalChunks == |original|
    {
      EachChunkIsOriginal(job, id, data, chunkSize, original, presented, manifest, k);
    }
    assert presented == original;
    JoinedIsPrefix(job, id, data, chunkSize, original, |original|);
    assert original[..|original|] == original;
  }
}
