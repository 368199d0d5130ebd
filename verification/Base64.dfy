/**
 * Base64 (section 4 of RFC 4648) as the strict decoder reads it: standard or URL alphabet, padded or not,
 * unused bits zero. Decoding is exactly the inverse of encoding, so every accepted text is canonical.
 */
module Base64 {
  import opened Text
  import opened Bytes

  datatype Variant = Variant(url: bool, padded: bool)

  const STANDARD := Variant(false, true)
  const UNPADDED := Variant(false, false)
  const URL_UNPADDED := Variant(true, false)

  function Letter(v: nat, url: bool): (c: char)
    requires v < 64
    ensures c != '='
  {
    if v < 26 then 'A' + v as char
    else if v < 52 then 'a' + (v - 26) as char
    else if v < 62 then '0' + (v - 52) as char
    else if v == 62 then if url then '-' else '+'
    else if url then '_' else '/'
  }

  function Value(c: char, url: bool): (v: Option<nat>)
    ensures v.Some? ==> v.value < 64
  {
    if 'A' <= c <= 'Z' then Some(c as nat - 'A' as nat)
    else if 'a' <= c <= 'z' then Some(c as nat - 'a' as nat + 26)
    else if '0' <= c <= '9' then Some(c as nat - '0' as nat + 52)
    else if c == (if url then '-' else '+') then Some(62)
    else if c == (if url then '_' else '/') then Some(63)
    else None
  }

  /** The alphabet is a bijection with the numbers below 64. */
  lemma LetterReads(v: nat, url: bool)
    requires v < 64
    ensures Value(Letter(v, url), url) == Some(v)
  {}

  lemma ValueWrites(c: char, url: bool)
    requires Value(c, url).Some?
    ensures Letter(Value(c, url).value, url) == c
  {}

  function Pad(v: Variant, n: nat): string {
    if !v.padded then "" else if n == 1 then "=" else "=="
  }

  function Encode(b: seq<Byte>, v: Variant): string {
    if |b| == 0 then ""
    else if |b| == 1 then EncodeOne(b[0], v.url) + Pad(v, 2)
    else if |b| == 2 then EncodeTwo(b[0], b[1], v.url) + Pad(v, 1)
    else EncodeGroup(b[0], b[1], b[2], v.url) + Encode(b[3..], v)
  }

  function EncodeOne(x: Byte, url: bool): (s: string)
    ensures |s| == 2
  {
    [Letter(x / 4, url), Letter(x % 4 * 16, url)]
  }

  function EncodeTwo(x: Byte, y: Byte, url: bool): (s: string)
    ensures |s| == 3
  {
    [Letter(x / 4, url), Letter(x % 4 * 16 + y / 16, url), Letter(y % 16 * 4, url)]
  }

  function EncodeGroup(x: Byte, y: Byte, z: Byte, url: bool): (s: string)
    ensures |s| == 4
  {
    [Letter(x / 4, url), Letter(x % 4 * 16 + y / 16, url), Letter(y % 16 * 4 + z / 64, url), Letter(z % 64, url)]
  }

  function DecodeGroup(s: string, url: bool): (r: Option<seq<Byte>>)
    requires |s| == 4
    ensures r.Some? ==> |r.value| == 3
  {
    var p, q, r, t := Value(s[0], url), Value(s[1], url), Value(s[2], url), Value(s[3], url);
    if p.None? || q.None? || r.None? || t.None? then None
    else Some(Join(p.value, q.value, r.value, t.value))
  }

  /** Three bytes out of four six-bit numbers. */
  function Join(p: nat, q: nat, r: nat, t: nat): (b: seq<Byte>)
    requires p < 64 && q < 64 && r < 64 && t < 64
    ensures |b| == 3
  {
    [p * 4 + q / 16, q % 16 * 16 + r / 4, r % 4 * 64 + t]
  }

  /** The last group, padding removed: two or three letters whose spare bits are zero. */
  function DecodeTail(s: string, url: bool): Option<seq<Byte>> {
    if |s| < 2 || |s| > 3 then None
    else
      var p, q := Value(s[0], url), Value(s[1], url);
      if p.None? || q.None? then None
      else if |s| == 2 then
        if q.value % 16 != 0 then None else Some([p.value * 4 + q.value / 16])
      else
        var r := Value(s[2], url);
        if r.None? || r.value % 4 != 0 then None
        else Some([p.value * 4 + q.value / 16, q.value % 16 * 16 + r.value / 4])
  }

  function Decode(s: string, v: Variant): Option<seq<Byte>> {
    if s == "" then Some([])
    else if |s| < 4 then if v.padded then None else DecodeTail(s, v.url)
    else if v.padded && |s| == 4 && s[3] == '=' then DecodeTail(if s[2] == '=' then s[..2] else s[..3], v.url)
    else
      var head, rest := DecodeGroup(s[..4], v.url), Decode(s[4..], v);
      if head.None? || rest.None? then None else Some(head.value + rest.value)
  }

  lemma JoinSplits(x: Byte, y: Byte, z: Byte)
    ensures Join(x / 4, x % 4 * 16 + y / 16, y % 16 * 4 + z / 64, z % 64) == [x, y, z]
  {}

  lemma SplitJoins(p: nat, q: nat, r: nat, t: nat)
    requires p < 64 && q < 64 && r < 64 && t < 64
    ensures var b := Join(p, q, r, t);
            b[0] / 4 == p && b[0] % 4 * 16 + b[1] / 16 == q && b[1] % 16 * 4 + b[2] / 64 == r && b[2] % 64 == t
  {}

  lemma GroupRoundTrips(x: Byte, y: Byte, z: Byte, url: bool)
    ensures DecodeGroup(EncodeGroup(x, y, z, url), url) == Some([x, y, z])
  {
    var p, q, r, t := x / 4, x % 4 * 16 + y / 16, y % 16 * 4 + z / 64, z % 64;
    LetterReads(p, url);
    LetterReads(q, url);
    LetterReads(r, url);
    LetterReads(t, url);
    JoinSplits(x, y, z);
  }

  lemma GroupIsCanonical(s: string, url: bool)
    requires |s| == 4 && DecodeGroup(s, url).Some?
    ensures var b := DecodeGroup(s, url).value; EncodeGroup(b[0], b[1], b[2], url) == s
  {
    ValueWrites(s[0], url);
    ValueWrites(s[1], url);
    ValueWrites(s[2], url);
    ValueWrites(s[3], url);
    SplitJoins(Value(s[0], url).value, Value(s[1], url).value, Value(s[2], url).value, Value(s[3], url).value);
  }

  lemma ShortTailRoundTrips(x: Byte, url: bool)
    ensures DecodeTail(EncodeOne(x, url), url) == Some([x])
  {
    LetterReads(x / 4, url);
    LetterReads(x % 4 * 16, url);
  }

  lemma LongTailRoundTrips(x: Byte, y: Byte, url: bool)
    ensures DecodeTail(EncodeTwo(x, y, url), url) == Some([x, y])
  {
    LetterReads(x / 4, url);
    LetterReads(x % 4 * 16 + y / 16, url);
    LetterReads(y % 16 * 4, url);
    JoinSplits(x, y, 0);
  }

  lemma TailRoundTrips(b: seq<Byte>, v: Variant)
    requires 1 <= |b| <= 2
    ensures |Encode(b, v.(padded := false))| == |b| + 1
    ensures DecodeTail(Encode(b, v.(padded := false)), v.url) == Some(b)
  {
    if |b| == 1 {
      ShortTailRoundTrips(b[0], v.url);
      assert EncodeOne(b[0], v.url) + "" == EncodeOne(b[0], v.url) && b == [b[0]];
    } else {
      LongTailRoundTrips(b[0], b[1], v.url);
      assert EncodeTwo(b[0], b[1], v.url) + "" == EncodeTwo(b[0], b[1], v.url) && b == [b[0], b[1]];
    }
  }

  lemma ShortTailIsCanonical(s: string, url: bool)
    requires |s| == 2 && DecodeTail(s, url).Some?
    ensures |DecodeTail(s, url).value| == 1 && EncodeOne(DecodeTail(s, url).value[0], url) == s
  {
    ValueWrites(s[0], url);
    ValueWrites(s[1], url);
    SplitJoins(Value(s[0], url).value, Value(s[1], url).value, 0, 0);
  }

  lemma LongTailIsCanonical(s: string, url: bool)
    requires |s| == 3 && DecodeTail(s, url).Some?
    ensures var b := DecodeTail(s, url).value; |b| == 2 && EncodeTwo(b[0], b[1], url) == s
  {
    ValueWrites(s[0], url);
    ValueWrites(s[1], url);
    ValueWrites(s[2], url);
    SplitJoins(Value(s[0], url).value, Value(s[1], url).value, Value(s[2], url).value, 0);
  }

  lemma TailIsCanonical(s: string, v: Variant)
    requires DecodeTail(s, v.url).Some?
    ensures 1 <= |DecodeTail(s, v.url).value| == |s| - 1 <= 2
    ensures Encode(DecodeTail(s, v.url).value, v.(padded := false)) == s
  {
    if |s| == 2 {
      ShortTailIsCanonical(s, v.url);
    } else {
      LongTailIsCanonical(s, v.url);
    }
    assert s + "" == s;
  }

  lemma PaddedTail(b: seq<Byte>, v: Variant)
    requires 1 <= |b| <= 2 && v.padded
    ensures Encode(b, v) == Encode(b, v.(padded := false)) + Pad(v, 3 - |b|)
  {}

  lemma ShortRoundTrips(b: seq<Byte>, v: Variant)
    requires 1 <= |b| <= 2
    ensures Decode(Encode(b, v), v) == Some(b)
  {
    TailRoundTrips(b, v);
    if v.padded {
      PaddedTail(b, v);
      var text, s := Encode(b, v.(padded := false)), Encode(b, v);
      assert s[..|b| + 1] == text;
    }
  }

  lemma GroupDecodesFirst(x: Byte, y: Byte, z: Byte, tail: string, rest: seq<Byte>, v: Variant)
    requires Decode(tail, v) == Some(rest)
    ensures Decode(EncodeGroup(x, y, z, v.url) + tail, v) == Some([x, y, z] + rest)
  {
    var head := EncodeGroup(x, y, z, v.url);
    GroupRoundTrips(x, y, z, v.url);
    assert (head + tail)[..4] == head && (head + tail)[4..] == tail;
    assert head[3] != '=' && (head + tail)[3] == head[3];
  }

  lemma {:induction false} DecodeInvertsEncode(b: seq<Byte>, v: Variant)
    ensures Decode(Encode(b, v), v) == Some(b)
  {
    if |b| >= 3 {
      DecodeInvertsEncode(b[3..], v);
      GroupDecodesFirst(b[0], b[1], b[2], Encode(b[3..], v), b[3..], v);
      assert b == [b[0], b[1], b[2]] + b[3..];
    } else if |b| > 0 {
      ShortRoundTrips(b, v);
    }
  }

  lemma {:induction false} EncodeInvertsDecode(s: string, v: Variant)
    requires Decode(s, v).Some?
    ensures Encode(Decode(s, v).value, v) == s
  {
    if s == "" {
    } else if |s| < 4 {
      TailIsCanonical(s, v);
    } else if v.padded && |s| == 4 && s[3] == '=' {
      var text := if s[2] == '=' then s[..2] else s[..3];
      TailIsCanonical(text, v);
      PaddedTail(DecodeTail(text, v.url).value, v);
      assert s == text + Pad(v, 4 - |text|);
    } else {
      GroupIsCanonical(s[..4], v.url);
      EncodeInvertsDecode(s[4..], v);
      var head, rest := DecodeGroup(s[..4], v.url).value, Decode(s[4..], v).value;
      assert (head + rest)[3..] == rest;
      assert s == s[..4] + s[4..];
    }
  }

  /** A text decodes to `b` exactly when it is the encoding of `b`: one text for each byte string. */
  lemma DecodesToExactly(s: string, b: seq<Byte>, v: Variant)
    ensures Decode(s, v) == Some(b) <==> s == Encode(b, v)
  {
    DecodeInvertsEncode(b, v);
    if Decode(s, v) == Some(b) {
      EncodeInvertsDecode(s, v);
    }
  }

  lemma {:induction false} EncodedLength(b: seq<Byte>, v: Variant)
    requires !v.padded
    ensures |Encode(b, v)| == (4 * |b| + 2) / 3
  {
    if |b| >= 3 {
      EncodedLength(b[3..], v);
    }
  }

  /** Three bytes are one number of 24 bits, written in four letters of six bits, the highest first. */
  lemma GroupIsOneNumber(x: Byte, y: Byte, z: Byte, v: Variant, n: nat)
    requires n == FromParts(0, x, y, z, 256)
    ensures Encode([x, y, z], v)
         == [Letter(n / 262144, v.url), Letter(n / 4096 % 64, v.url), Letter(n / 64 % 64, v.url), Letter(n % 64, v.url)]
  {
    FourDigits(x / 4, x % 4 * 16 + y / 16, y % 16 * 4 + z / 64, z % 64, n);
    assert [x, y, z][3..] == [];
  }

  /** Vectors of section 10 of RFC 4648 (`f`, `fo`, `foo`), and the letters in which the alphabets differ. */
  lemma RfcVectors(f: Byte, o: Byte)
    requires f == 0x66 && o == 0x6F
    ensures Encode([f], STANDARD) == "Zg==" && Encode([f, o], STANDARD) == "Zm8="
            && Encode([f, o, o], STANDARD) == "Zm9v"
    ensures Encode([f], UNPADDED) == "Zg" && Encode([f, o], UNPADDED) == "Zm8"
    ensures Encode([0xFB, 0xFF, 0xBF], UNPADDED) == "+/+/" && Encode([0xFB, 0xFF, 0xBF], URL_UNPADDED) == "-_-_"
  {
    assert [f, o, o][3..] == [] && [0xFB, 0xFF, 0xBF][3..] == [];
  }
}
