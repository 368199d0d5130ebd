/**
 * The canonical message an SSH key signs to authenticate: which challenges are signed at all, and why the signed
 * bytes determine every field although some have variable length and one is optional.
 */
module SshSigning {
  import opened Text
  import opened Bytes
  import opened Base64

  const DOMAIN: string := "zk-note-ssh-auth-v1"
  const SSH_AUTH_VERSION: U32 := 1

  type Uuid = b: seq<Byte> | |b| == 16 witness seq(16, _ => 0)
  type U64 = x: int | 0 <= x < 0x1_0000_0000_0000_0000

  datatype StartRequest = StartRequest(
    version: U32,
    fingerprint: string,
    audience: string,
    accountId: Option<Uuid>,
    deviceId: Uuid)

  datatype Challenge = Challenge(request: StartRequest, challengeId: Uuid, nonce: string, expiresAt: U64)

  predicate IsNil(id: Uuid) {
    forall i :: 0 <= i < 16 ==> id[i] == 0
  }

  predicate IsPrintable(c: char) {
    ' ' < c <= '~'
  }

  predicate GoodAudience(audience: string) {
    && |Utf8Bytes(audience)| <= 2048
    && (forall i :: 0 <= i < |audience| ==> IsPrintable(audience[i]))
    && ("https://" <= audience || "http://" <= audience)
  }

  predicate GoodIds(c: Challenge) {
    && !IsNil(c.request.deviceId) && !IsNil(c.challengeId)
    && (c.request.accountId.Some? ==> !IsNil(c.request.accountId.value))
  }

  /** A text of 32 bytes in unpadded Base64, re-encoded to itself. */
  predicate GoodBase64(text: string, v: Variant) {
    var bytes := Decode(text, v);
    bytes.Some? && |bytes.value| == 32 && Encode(bytes.value, v) == text
  }

  predicate GoodFingerprint(fingerprint: string) {
    |Utf8Bytes(fingerprint)| == 50 && "SHA256:" <= fingerprint && GoodBase64(fingerprint[7..], UNPADDED)
  }

  predicate GoodNonce(nonce: string) {
    |Utf8Bytes(nonce)| == 43 && GoodBase64(nonce, URL_UNPADDED)
  }

  predicate IsSigned(c: Challenge) {
    && GoodFingerprint(c.request.fingerprint) && GoodNonce(c.nonce)
    && c.request.version == SSH_AUTH_VERSION && GoodIds(c) && c.expiresAt != 0
    && GoodAudience(c.request.audience)
  }

  // ---------------------------------------------------------------- the message

  /** A byte string after its 32-bit length. */
  function Prefixed(b: seq<Byte>): seq<Byte> {
    BigEndian(|b| % U32_LIMIT, 4) + b
  }

  function AccountBytes(account: Option<Uuid>): seq<Byte> {
    if account.Some? then [1] + account.value else [0]
  }

  function IdsAndAfter(c: Challenge, nonce: seq<Byte>): seq<Byte> {
    c.request.deviceId + (c.challengeId + (nonce + BigEndian(c.expiresAt, 8)))
  }

  function Message(c: Challenge, nonce: seq<Byte>): seq<Byte> {
    Prefixed(Utf8Bytes(DOMAIN)) + (BigEndian(c.request.version, 4)
      + (Prefixed(Utf8Bytes(c.request.audience)) + (Prefixed(Utf8Bytes(c.request.fingerprint))
      + (AccountBytes(c.request.accountId) + IdsAndAfter(c, nonce)))))
  }

  function NonceBytes(c: Challenge): seq<Byte> {
    var bytes := Decode(c.nonce, URL_UNPADDED);
    if bytes.Some? then bytes.value else []
  }

  method AppendString(bytes: seq<Byte>, value: string) returns (out: seq<Byte>)
    ensures out == bytes + Prefixed(Utf8Bytes(value))
  {
    out := bytes + BigEndian(|Utf8Bytes(value)| % U32_LIMIT, 4);
    out := out + Utf8Bytes(value);
  }

  /** Validation, then the fields appended one by one. */
  method SigningBytes(c: Challenge) returns (r: Option<seq<Byte>>)
    ensures r == if IsSigned(c) then Some(Message(c, NonceBytes(c))) else None
  {
    if !IsSigned(c) {
      return None;
    }
    var bytes := AppendFields(c, NonceBytes(c));
    return Some(bytes);
  }

  method AppendAccount(bytes: seq<Byte>, account: Option<Uuid>) returns (out: seq<Byte>)
    ensures out == bytes + AccountBytes(account)
  {
    match account {
      case Some(id) =>
        out := bytes + [1];
        out := out + id;
      case None =>
        out := bytes + [0];
    }
  }

  method AppendFields(c: Challenge, nonce: seq<Byte>) returns (bytes: seq<Byte>)
    ensures bytes == Message(c, nonce)
  {
    bytes := AppendString([], DOMAIN);
    bytes := bytes + BigEndian(c.request.version, 4);
    bytes := AppendString(bytes, c.request.audience);
    bytes := AppendString(bytes, c.request.fingerprint);
    bytes := AppendAccount(bytes, c.request.accountId);
    ghost var head := bytes;
    bytes := bytes + c.request.deviceId;
    bytes := bytes + c.challengeId;
    bytes := bytes + nonce;
    bytes := bytes + BigEndian(c.expiresAt, 8);
    Regroup(head, c.request.deviceId, c.challengeId, nonce, BigEndian(c.expiresAt, 8));
    RegroupHead(Prefixed(Utf8Bytes(DOMAIN)), BigEndian(c.request.version, 4), Prefixed(Utf8Bytes(c.request.audience)),
                Prefixed(Utf8Bytes(c.request.fingerprint)), AccountBytes(c.request.accountId), IdsAndAfter(c, nonce));
  }

  lemma Regroup(head: seq<Byte>, a: seq<Byte>, b: seq<Byte>, c: seq<Byte>, d: seq<Byte>)
    ensures head + a + b + c + d == head + (a + (b + (c + d)))
  {}

  lemma RegroupHead(a: seq<Byte>, b: seq<Byte>, c: seq<Byte>, d: seq<Byte>, e: seq<Byte>, f: seq<Byte>)
    ensures ([] + a) + b + c + d + e + f == a + (b + (c + (d + (e + f))))
  {
    Regroup(a, b, c, d, e + f);
    assert [] + a == a;
    assert (a + b + c + d) + e + f == (a + b + c + d) + (e + f);
  }

  // ---------------------------------------------------------------- what the checks add

  lemma {:induction false} LettersAreAscii(b: seq<Byte>, v: Variant)
    requires !v.padded
    ensures IsAscii(Encode(b, v))
  {
    if |b| >= 3 {
      LettersAreAscii(b[3..], v);
    }
  }

  /** A text that decodes and has 43 letters is 32 bytes in canonical form: the other two checks cannot fail. */
  lemma DecodingAlreadyChecks(text: string, v: Variant)
    requires !v.padded && |text| == 43
    ensures GoodBase64(text, v) <==> Decode(text, v).Some?
  {
    if Decode(text, v).Some? {
      EncodeInvertsDecode(text, v);
      EncodedLength(Decode(text, v).value, v);
    }
  }

  // ---------------------------------------------------------------- the message determines the challenge

  lemma Grouped(a: seq<Byte>, b: seq<Byte>, x: seq<Byte>)
    ensures (a + b) + x == a + (b + x)
  {}

  lemma PrefixedGrouped(a: seq<Byte>, x: seq<Byte>)
    requires |a| < U32_LIMIT
    ensures Prefixed(a) + x == BigEndian(|a|, 4) + (a + x)
  {
    Grouped(BigEndian(|a| % U32_LIMIT, 4), a, x);
    ShortLength(|a|, U32_LIMIT);
  }

  lemma CancelPrefixed(a: seq<Byte>, x: seq<Byte>, b: seq<Byte>, y: seq<Byte>)
    requires |a| < U32_LIMIT && |b| < U32_LIMIT && Prefixed(a) + x == Prefixed(b) + y
    ensures a == b && x == y
  {
    PrefixedGrouped(a, x);
    PrefixedGrouped(b, y);
    Cancel(BigEndian(|a|, 4), a + x, BigEndian(|b|, 4), b + y);
    U32IsInjective(|a|, |b|);
    Cancel(a, x, b, y);
  }

  lemma CancelAccount(a: Option<Uuid>, x: seq<Byte>, b: Option<Uuid>, y: seq<Byte>)
    requires AccountBytes(a) + x == AccountBytes(b) + y
    ensures a == b && x == y
  {
    assert (AccountBytes(a) + x)[0] == AccountBytes(a)[0] && (AccountBytes(b) + y)[0] == AccountBytes(b)[0];
    Cancel(AccountBytes(a), x, AccountBytes(b), y);
    if a.Some? {
      assert AccountBytes(a)[1..] == a.value && AccountBytes(b)[1..] == b.value;
    }
  }

  lemma CancelTail(c: Challenge, m: seq<Byte>, x: seq<Byte>, d: Challenge, n: seq<Byte>, y: seq<Byte>)
    requires |m| == |n| == 32 && IdsAndAfter(c, m) + x == IdsAndAfter(d, n) + y
    ensures c.request.deviceId == d.request.deviceId && c.challengeId == d.challengeId && m == n
    ensures c.expiresAt == d.expiresAt && x == y
  {
    var s, t := BigEndian(c.expiresAt, 8), BigEndian(d.expiresAt, 8);
    Cancel(IdsAndAfter(c, m), x, IdsAndAfter(d, n), y);
    Cancel(c.request.deviceId, c.challengeId + (m + s), d.request.deviceId, d.challengeId + (n + t));
    Cancel(c.challengeId, m + s, d.challengeId, n + t);
    Cancel(m, s, n, t);
    Limits();
    BigEndianIsInjective(c.expiresAt, d.expiresAt, 8);
  }

  lemma {:induction false} AsciiTextsDiffer(s: string, t: string)
    requires IsAscii(s) && IsAscii(t) && Utf8Bytes(s) == Utf8Bytes(t)
    ensures s == t
  {
    AsciiBytes(s);
    AsciiBytes(t);
    forall i | 0 <= i < |s| ensures s[i] == t[i] {
      assert Utf8Bytes(s)[i] == Utf8Bytes(t)[i];
    }
  }

  lemma FingerprintIsAscii(fingerprint: string)
    requires GoodFingerprint(fingerprint)
    ensures IsAscii(fingerprint)
  {
    LettersAreAscii(Decode(fingerprint[7..], UNPADDED).value, UNPADDED);
    assert fingerprint == fingerprint[..7] + fingerprint[7..] && fingerprint[..7] == "SHA256:";
  }

  /** The rest of the message after the domain, the version and the audience, with what follows it. */
  function FromFingerprint(c: Challenge, nonce: seq<Byte>, x: seq<Byte>): seq<Byte> {
    Prefixed(Utf8Bytes(c.request.fingerprint)) + (AccountBytes(c.request.accountId) + (IdsAndAfter(c, nonce) + x))
  }

  lemma MessageGrouped(c: Challenge, nonce: seq<Byte>, x: seq<Byte>)
    ensures Message(c, nonce) + x
         == Prefixed(Utf8Bytes(DOMAIN)) + (BigEndian(c.request.version, 4)
            + (Prefixed(Utf8Bytes(c.request.audience)) + FromFingerprint(c, nonce, x)))
  {
    var dom, ver := Prefixed(Utf8Bytes(DOMAIN)), BigEndian(c.request.version, 4);
    var aud, fin := Prefixed(Utf8Bytes(c.request.audience)), Prefixed(Utf8Bytes(c.request.fingerprint));
    var acc, ids := AccountBytes(c.request.accountId), IdsAndAfter(c, nonce);
    Grouped(acc, ids, x);
    Grouped(fin, acc + ids, x);
    Grouped(aud, fin + (acc + ids), x);
    Grouped(ver, aud + (fin + (acc + ids)), x);
    Grouped(dom, ver + (aud + (fin + (acc + ids))), x);
  }

  lemma CancelHead(c: Challenge, m: seq<Byte>, x: seq<Byte>, d: Challenge, n: seq<Byte>, y: seq<Byte>)
    requires Message(c, m) + x == Message(d, n) + y
    requires |Utf8Bytes(c.request.audience)| <= 2048 && |Utf8Bytes(d.request.audience)| <= 2048
    ensures c.request.version == d.request.version
    ensures Utf8Bytes(c.request.audience) == Utf8Bytes(d.request.audience)
    ensures FromFingerprint(c, m, x) == FromFingerprint(d, n, y)
  {
    MessageGrouped(c, m, x);
    MessageGrouped(d, n, y);
    var u := Prefixed(Utf8Bytes(c.request.audience)) + FromFingerprint(c, m, x);
    var v := Prefixed(Utf8Bytes(d.request.audience)) + FromFingerprint(d, n, y);
    var dom := Prefixed(Utf8Bytes(DOMAIN));
    Cancel(dom, BigEndian(c.request.version, 4) + u, dom, BigEndian(d.request.version, 4) + v);
    Cancel(BigEndian(c.request.version, 4), u, BigEndian(d.request.version, 4), v);
    U32IsInjective(c.request.version, d.request.version);
    CancelPrefixed(Utf8Bytes(c.request.audience), FromFingerprint(c, m, x),
                   Utf8Bytes(d.request.audience), FromFingerprint(d, n, y));
  }

  lemma CancelRest(c: Challenge, m: seq<Byte>, x: seq<Byte>, d: Challenge, n: seq<Byte>, y: seq<Byte>)
    requires |m| == |n| == 32 && FromFingerprint(c, m, x) == FromFingerprint(d, n, y)
    requires |Utf8Bytes(c.request.fingerprint)| == |Utf8Bytes(d.request.fingerprint)| == 50
    ensures Utf8Bytes(c.request.fingerprint) == Utf8Bytes(d.request.fingerprint)
    ensures c.request.accountId == d.request.accountId && c.request.deviceId == d.request.deviceId
    ensures c.challengeId == d.challengeId && m == n && c.expiresAt == d.expiresAt && x == y
  {
    var u := AccountBytes(c.request.accountId) + (IdsAndAfter(c, m) + x);
    var v := AccountBytes(d.request.accountId) + (IdsAndAfter(d, n) + y);
    CancelPrefixed(Utf8Bytes(c.request.fingerprint), u, Utf8Bytes(d.request.fingerprint), v);
    CancelAccount(c.request.accountId, IdsAndAfter(c, m) + x, d.request.accountId, IdsAndAfter(d, n) + y);
    CancelTail(c, m, x, d, n, y);
  }

  /**
   * Two signed challenges whose messages agree, even as beginnings of longer byte strings, are the same challenge.
   * So the signed bytes are injective, and no message is a prefix of another.
   */
  lemma MessageDeterminesChallenge(c: Challenge, d: Challenge, x: seq<Byte>, y: seq<Byte>)
    requires IsSigned(c) && IsSigned(d)
    requires Message(c, NonceBytes(c)) + x == Message(d, NonceBytes(d)) + y
    ensures c == d && x == y
  {
    CancelHead(c, NonceBytes(c), x, d, NonceBytes(d), y);
    CancelRest(c, NonceBytes(c), x, d, NonceBytes(d), y);
    AsciiTextsDiffer(c.request.audience, d.request.audience);
    FingerprintIsAscii(c.request.fingerprint);
    FingerprintIsAscii(d.request.fingerprint);
    AsciiTextsDiffer(c.request.fingerprint, d.request.fingerprint);
    EncodeInvertsDecode(c.nonce, URL_UNPADDED);
    EncodeInvertsDecode(d.nonce, URL_UNPADDED);
  }

  // ---------------------------------------------------------------- which challenges, and where their fields are

  ghost predicate IsFingerprintOf(fingerprint: string, digest: seq<Byte>) {
    |digest| == 32 && fingerprint == "SHA256:" + Encode(digest, UNPADDED)
  }

  ghost predicate IsNonceOf(nonce: string, bytes: seq<Byte>) {
    |bytes| == 32 && nonce == Encode(bytes, URL_UNPADDED)
  }

  lemma BytesOfText(text: string, n: nat)
    requires IsAscii(text)
    ensures |Utf8Bytes(text)| == n <==> |text| == n
  {
    AsciiBytes(text);
  }

  lemma FingerprintExactly(fingerprint: string)
    ensures GoodFingerprint(fingerprint) <==> exists digest :: IsFingerprintOf(fingerprint, digest)
  {
    if GoodFingerprint(fingerprint) {
      var digest := Decode(fingerprint[7..], UNPADDED).value;
      assert fingerprint == "SHA256:" + fingerprint[7..];
      assert IsFingerprintOf(fingerprint, digest);
    }
    forall digest | IsFingerprintOf(fingerprint, digest) ensures GoodFingerprint(fingerprint) {
      var text := Encode(digest, UNPADDED);
      LettersAreAscii(digest, UNPADDED);
      EncodedLength(digest, UNPADDED);
      DecodeInvertsEncode(digest, UNPADDED);
      assert fingerprint[7..] == text && fingerprint[..7] == "SHA256:";
      BytesOfText(fingerprint, 50);
    }
  }

  lemma NonceExactly(nonce: string)
    ensures GoodNonce(nonce) <==> exists bytes :: IsNonceOf(nonce, bytes)
  {
    if GoodNonce(nonce) {
      assert IsNonceOf(nonce, Decode(nonce, URL_UNPADDED).value);
    }
    forall bytes | IsNonceOf(nonce, bytes) ensures GoodNonce(nonce) {
      LettersAreAscii(bytes, URL_UNPADDED);
      EncodedLength(bytes, URL_UNPADDED);
      DecodeInvertsEncode(bytes, URL_UNPADDED);
      BytesOfText(nonce, 43);
    }
  }

  /** A web address of at most 2048 printable ASCII characters, none of them a blank. */
  predicate IsAddress(audience: string) {
    && |audience| <= 2048 && (forall i :: 0 <= i < |audience| ==> 0x21 <= audience[i] as int <= 0x7E)
    && (audience[..if |audience| < 8 then |audience| else 8] == "https://"
        || audience[..if |audience| < 7 then |audience| else 7] == "http://")
  }

  lemma AudienceExactly(audience: string)
    ensures GoodAudience(audience) <==> IsAddress(audience)
  {
    if forall i :: 0 <= i < |audience| ==> 0x21 <= audience[i] as int <= 0x7E {
      AsciiBytes(audience);
    }
  }

  /** An id with some byte that is not zero. */
  predicate IsReal(id: Uuid) {
    exists i :: 0 <= i < 16 && id[i] != 0
  }

  /**
   * Signed are exactly the challenges of version 1 with a fingerprint and a nonce of 32 bytes each, real ids, an
   * expiry, and a web address as audience.
   */
  lemma SignedExactly(c: Challenge)
    ensures IsSigned(c) <==>
              && (exists digest :: IsFingerprintOf(c.request.fingerprint, digest))
              && (exists bytes :: IsNonceOf(c.nonce, bytes))
              && c.request.version == 1 && c.expiresAt > 0 && IsAddress(c.request.audience)
              && IsReal(c.request.deviceId) && IsReal(c.challengeId)
              && (c.request.accountId.Some? ==> IsReal(c.request.accountId.value))
  {
    FingerprintExactly(c.request.fingerprint);
    NonceExactly(c.nonce);
    AudienceExactly(c.request.audience);
  }

  /** A string in front of `rest`: its length, then its bytes. */
  predicate BeginsWith(message: seq<Byte>, text: seq<Byte>, rest: seq<Byte>) {
    && |message| == 4 + |text| + |rest| && message[..4] == BigEndian(|text|, 4)
    && message[4..4 + |text|] == text && message[4 + |text|..] == rest
  }

  lemma PrefixedBegins(text: seq<Byte>, rest: seq<Byte>)
    requires |text| < U32_LIMIT
    ensures BeginsWith(Prefixed(text) + rest, text, rest)
  {
    ShortLength(|text|, U32_LIMIT);
  }

  /** Device, challenge, nonce and expiry fill the last 72 bytes. */
  lemma LastFields(c: Challenge, nonce: seq<Byte>)
    requires |nonce| == 32
    ensures var t := IdsAndAfter(c, nonce);
            && |t| == 72 && t[..16] == c.request.deviceId && t[16..32] == c.challengeId && t[32..64] == nonce
            && t[64..] == BigEndian(c.expiresAt, 8)
  {}

  /** From the flag on: whether an account follows, the account, and the last four fields. */
  function FromAccount(c: Challenge, nonce: seq<Byte>): seq<Byte> {
    AccountBytes(c.request.accountId) + IdsAndAfter(c, nonce)
  }

  lemma AccountReads(c: Challenge, nonce: seq<Byte>)
    ensures var t, last := FromAccount(c, nonce), IdsAndAfter(c, nonce);
            if c.request.accountId.None? then t == [0] + last
            else |t| >= 17 && t[0] == 1 && t[1..17] == c.request.accountId.value && t[17..] == last
  {}

  function FromAudience(c: Challenge, nonce: seq<Byte>): seq<Byte> {
    Prefixed(Utf8Bytes(c.request.audience)) + (Prefixed(Utf8Bytes(c.request.fingerprint)) + FromAccount(c, nonce))
  }

  /**
   * The message read from its beginning: the domain, four bytes of version, the audience, the fingerprint, and what
   * `AccountReads` and `LastFields` say of the rest.
   */
  lemma MessageReads(c: Challenge, nonce: seq<Byte>)
    requires |Utf8Bytes(c.request.audience)| < U32_LIMIT && |Utf8Bytes(c.request.fingerprint)| < U32_LIMIT
    ensures BeginsWith(Message(c, nonce), Utf8Bytes(DOMAIN), BigEndian(c.request.version, 4) + FromAudience(c, nonce))
    ensures BeginsWith(FromAudience(c, nonce), Utf8Bytes(c.request.audience),
                       Prefixed(Utf8Bytes(c.request.fingerprint)) + FromAccount(c, nonce))
    ensures BeginsWith(Prefixed(Utf8Bytes(c.request.fingerprint)) + FromAccount(c, nonce),
                       Utf8Bytes(c.request.fingerprint), FromAccount(c, nonce))
  {
    DomainIsShort();
    PrefixedBegins(Utf8Bytes(DOMAIN), BigEndian(c.request.version, 4) + FromAudience(c, nonce));
    PrefixedBegins(Utf8Bytes(c.request.audience), Prefixed(Utf8Bytes(c.request.fingerprint)) + FromAccount(c, nonce));
    PrefixedBegins(Utf8Bytes(c.request.fingerprint), FromAccount(c, nonce));
  }

  lemma DomainIsShort()
    ensures |Utf8Bytes(DOMAIN)| < U32_LIMIT
  {
    DomainBytes(DOMAIN);
  }

  lemma DomainBytes(domain: string)
    requires |domain| < 100 && IsAscii(domain)
    ensures |Utf8Bytes(domain)| < U32_LIMIT
  {
    AsciiBytes(domain);
  }
}
