/** Byte strings: big-endian numbers, UTF-8 validity and cancelling equal-length prefixes. */
module Bytes {

  type Byte = x: int | 0 <= x < 256

  const U16_LIMIT: nat := 0x1_0000
  const U32_LIMIT: nat := 0x1_0000_0000

  type U32 = x: int | 0 <= x < 0x1_0000_0000

  function Pow256(w: nat): nat {
    if w == 0 then 1 else 256 * Pow256(w - 1)
  }

  /** The last `w` bytes of `n`, most significant first. */
  function BigEndian(n: nat, w: nat): (b: seq<Byte>)
    ensures |b| == w
  {
    if w == 0 then [] else BigEndian(n / 256, w - 1) + [n % 256]
  }

  function FromBigEndian(b: seq<Byte>): nat {
    if b == [] then 0 else 256 * FromBigEndian(b[..|b| - 1]) + b[|b| - 1]
  }

  lemma {:induction false} BigEndianReads(n: nat, w: nat)
    requires n < Pow256(w)
    ensures FromBigEndian(BigEndian(n, w)) == n
  {
    if w > 0 {
      BigEndianReads(n / 256, w - 1);
      var b := BigEndian(n, w);
      assert b[..|b| - 1] == BigEndian(n / 256, w - 1);
    }
  }

  lemma {:induction false} BigEndianWrites(b: seq<Byte>)
    ensures FromBigEndian(b) < Pow256(|b|)
    ensures BigEndian(FromBigEndian(b), |b|) == b
  {
    if b != [] {
      BigEndianWrites(b[..|b| - 1]);
      assert b == b[..|b| - 1] + [b[|b| - 1]];
    }
  }

  lemma Limits()
    ensures Pow256(2) == U16_LIMIT && Pow256(4) == U32_LIMIT && Pow256(8) == 0x1_0000_0000_0000_0000
  {
    assert Pow256(1) == 256 * Pow256(0) == 256;
    assert Pow256(2) == 256 * Pow256(1);
    assert Pow256(3) == 256 * Pow256(2);
    assert Pow256(4) == 256 * Pow256(3);
    assert Pow256(5) == 256 * Pow256(4);
    assert Pow256(6) == 256 * Pow256(5);
    assert Pow256(7) == 256 * Pow256(6);
    assert Pow256(8) == 256 * Pow256(7);
  }

  /** Two numbers with the same bytes are the same number. */
  lemma BigEndianIsInjective(a: nat, b: nat, w: nat)
    requires a < Pow256(w) && b < Pow256(w) && BigEndian(a, w) == BigEndian(b, w)
    ensures a == b
  {
    BigEndianReads(a, w);
    BigEndianReads(b, w);
  }

  /** Heads of one length can be cut off on both sides. */
  lemma Cancel(a: seq<Byte>, x: seq<Byte>, b: seq<Byte>, y: seq<Byte>)
    requires |a| == |b| && a + x == b + y
    ensures a == b && x == y
  {
    assert a == (a + x)[..|a|] && b == (b + y)[..|b|];
    assert x == (a + x)[|a|..] && y == (b + y)[|b|..];
  }

  predicate Continues(b: Byte) {
    0x80 <= b < 0xC0
  }

  /** Length of the well-formed sequence that starts `b`, or 0 (table 3-7 of the Unicode Standard). */
  function SequenceLength(b: seq<Byte>): (n: nat)
    ensures n <= |b|
  {
    if b == [] then 0
    else if b[0] < 0x80 then 1
    else if |b| >= 2 && 0xC2 <= b[0] < 0xE0 && Continues(b[1]) then 2
    else if |b| >= 3 && 0xE0 <= b[0] < 0xF0 && Continues(b[1]) && Continues(b[2])
            && (b[0] == 0xE0 ==> b[1] >= 0xA0) && (b[0] == 0xED ==> b[1] < 0xA0) then 3
    else if |b| >= 4 && 0xF0 <= b[0] < 0xF5 && Continues(b[1]) && Continues(b[2]) && Continues(b[3])
            && (b[0] == 0xF0 ==> b[1] >= 0x90) && (b[0] == 0xF4 ==> b[1] < 0x90) then 4
    else 0
  }

  predicate IsUtf8(b: seq<Byte>) {
    b == [] || (SequenceLength(b) > 0 && IsUtf8(b[SequenceLength(b)..]))
  }

  function Utf8Width(c: char): nat {
    if c as int < 0x80 then 1 else if c as int < 0x800 then 2 else if c as int < 0x1_0000 then 3 else 4
  }

  function Utf8Char(c: char): (b: seq<Byte>)
    ensures |b| == Utf8Width(c)
  {
    var n := c as int;
    if n < 0x80 then [n]
    else if n < 0x800 then [0xC0 + n / 64, 0x80 + n % 64]
    else if n < 0x1_0000 then [0xE0 + n / 4096, 0x80 + n / 64 % 64, 0x80 + n % 64]
    else [0xF0 + n / 262144, 0x80 + n / 4096 % 64, 0x80 + n / 64 % 64, 0x80 + n % 64]
  }

  /** The bytes of a text. */
  function Utf8Bytes(s: string): seq<Byte> {
    if s == "" then [] else Utf8Char(s[0]) + Utf8Bytes(s[1..])
  }

  predicate IsAscii(s: string) {
    forall i :: 0 <= i < |s| ==> s[i] as int < 0x80
  }

  /** An ASCII text has one byte for each character. */
  lemma {:induction false} AsciiBytes(s: string)
    requires IsAscii(s)
    ensures |Utf8Bytes(s)| == |s|
    ensures forall i :: 0 <= i < |s| ==> Utf8Bytes(s)[i] == s[i] as int
  {
    if s != "" {
      AsciiBytes(s[1..]);
    }
  }

  /** The three shapes of a wide character, by its number. */
  lemma TwoBytes(n: int, rest: seq<Byte>)
    requires 0x80 <= n < 0x800
    ensures SequenceLength([0xC0 + n / 64, 0x80 + n % 64] + rest) == 2
  {}

  lemma ThreeBytes(n: int, rest: seq<Byte>)
    requires 0x800 <= n < 0x1_0000 && !(0xD800 <= n < 0xE000)
    ensures SequenceLength([0xE0 + n / 4096, 0x80 + n / 64 % 64, 0x80 + n % 64] + rest) == 3
  {}

  lemma FourBytes(n: int, rest: seq<Byte>)
    requires 0x1_0000 <= n < 0x11_0000
    ensures SequenceLength([0xF0 + n / 262144, 0x80 + n / 4096 % 64, 0x80 + n / 64 % 64, 0x80 + n % 64] + rest) == 4
  {}

  lemma CharIsWellFormed(c: char, rest: seq<Byte>)
    ensures SequenceLength(Utf8Char(c) + rest) == Utf8Width(c)
  {
    var n := c as int;
    if n >= 0x1_0000 {
      FourBytes(n, rest);
    } else if n >= 0x800 {
      ThreeBytes(n, rest);
    } else if n >= 0x80 {
      TwoBytes(n, rest);
    }
  }

  /** What a text is encoded to is what the validity check accepts. */
  lemma {:induction false} Utf8BytesAreValid(s: string)
    ensures IsUtf8(Utf8Bytes(s))
  {
    if s != "" {
      CharIsWellFormed(s[0], Utf8Bytes(s[1..]));
      Utf8BytesAreValid(s[1..]);
      assert Utf8Bytes(s)[Utf8Width(s[0])..] == Utf8Bytes(s[1..]);
    }
  }

  /** A Rust string: its UTF-8 bytes. */
  type Utf8 = b: seq<Byte> | IsUtf8(b)

  function ReadU16(b: seq<Byte>, at: nat): (n: nat)
    requires at + 2 <= |b|
    ensures n < U16_LIMIT && BigEndian(n, 2) == b[at..at + 2]
  {
    BigEndianWrites(b[at..at + 2]);
    Limits();
    FromBigEndian(b[at..at + 2])
  }

  function ReadU32(b: seq<Byte>, at: nat): (n: U32)
    requires at + 4 <= |b|
    ensures BigEndian(n, 4) == b[at..at + 4]
  {
    BigEndianWrites(b[at..at + 4]);
    Limits();
    FromBigEndian(b[at..at + 4])
  }

  lemma U32IsInjective(a: nat, b: nat)
    requires a < U32_LIMIT && b < U32_LIMIT && BigEndian(a, 4) == BigEndian(b, 4)
    ensures a == b
  {
    Limits();
    BigEndianIsInjective(a, b, 4);
  }

  lemma U16IsInjective(a: nat, b: nat)
    requires a < U16_LIMIT && b < U16_LIMIT && BigEndian(a, 2) == BigEndian(b, 2)
    ensures a == b
  {
    Limits();
    BigEndianIsInjective(a, b, 2);
  }

  /** A length that fits is written as it is. */
  lemma ShortLength(n: nat, limit: nat)
    requires n < limit
    ensures n % limit == n
  {}

  /** Most significant byte first. */
  lemma FourBytesRead(n: U32)
    ensures var b := BigEndian(n, 4); n == FromParts(b[0], b[1], b[2], b[3], 256)
  {
    assert BigEndian(n, 4) == BigEndian(n / 256, 3) + [n % 256];
    assert BigEndian(n / 256, 3) == BigEndian(n / 256 / 256, 2) + [n / 256 % 256];
    assert BigEndian(n / 256 / 256, 2) == BigEndian(n / 256 / 256 / 256, 1) + [n / 256 / 256 % 256];
    assert BigEndian(n / 256 / 256 / 256, 1) == BigEndian(n / 256 / 256 / 256 / 256, 0) + [n / 256 / 256 / 256 % 256];
  }

  /** Four digits of a number, the highest first. */
  function FromParts(a: int, b: int, c: int, d: int, radix: int): int {
    ((a * radix + b) * radix + c) * radix + d
  }

  /** The character's number is in the low bits of its bytes, six of each but the first. */
  lemma CharBytesRead(c: char)
    ensures var n, b := c as int, Utf8Char(c);
            && (n < 0x80 ==> b == [n])
            && (0x80 <= n < 0x800 ==> |b| == 2 && n == FromParts(0, 0, b[0] - 0xC0, b[1] - 0x80, 64))
            && (0x800 <= n < 0x1_0000 ==>
                  |b| == 3 && n == FromParts(0, b[0] - 0xE0, b[1] - 0x80, b[2] - 0x80, 64))
            && (0x1_0000 <= n ==>
                  |b| == 4 && n == FromParts(b[0] - 0xF0, b[1] - 0x80, b[2] - 0x80, b[3] - 0x80, 64))
  {
    SixBitsEach(c as int);
  }

  lemma SixBitsEach(n: nat)
    ensures n == FromParts(0, 0, n / 64, n % 64, 64)
    ensures n == FromParts(0, n / 4096, n / 64 % 64, n % 64, 64)
    ensures n == FromParts(n / 262144, n / 4096 % 64, n / 64 % 64, n % 64, 64)
  {
    ByStepsOf64(n);
  }

  lemma ByStepsOf64(n: int)
    ensures n / 4096 == n / 64 / 64 && n / 262144 == n / 64 / 64 / 64
  {}

  /** The last digit to base 64 comes off. */
  lemma LastDigit(n: int, q: int, d: int)
    requires n == 64 * q + d && 0 <= d < 64
    ensures n / 64 == q && n % 64 == d
  {}

  // ---------------------------------------------------------------- valid bytes are text

  /** The number in the low bits of a well-formed sequence. */
  function CharNumber(b: seq<Byte>): int {
    match SequenceLength(b)
    case 1 => b[0]
    case 2 => FromParts(0, 0, b[0] - 0xC0, b[1] - 0x80, 64)
    case 3 => FromParts(0, b[0] - 0xE0, b[1] - 0x80, b[2] - 0x80, 64)
    case 4 => FromParts(b[0] - 0xF0, b[1] - 0x80, b[2] - 0x80, b[3] - 0x80, 64)
    case _ => 0
  }

  lemma TwoDigits(a: int, b: int)
    requires 0 <= a && 0 <= b < 64
    ensures FromParts(0, 0, a, b, 64) / 64 == a && FromParts(0, 0, a, b, 64) % 64 == b
  {
    LastDigit(FromParts(0, 0, a, b, 64), a, b);
  }

  lemma ThreeDigits(a: int, b: int, c: int, n: int)
    requires 0 <= a && 0 <= b < 64 && 0 <= c < 64 && n == FromParts(0, a, b, c, 64)
    ensures n / 4096 == a && n / 64 % 64 == b && n % 64 == c
  {
    LastDigit(n, 64 * a + b, c);
    LastDigit(64 * a + b, a, b);
    ByStepsOf64(n);
  }

  lemma FourDigits(a: int, b: int, c: int, d: int, n: int)
    requires 0 <= a && 0 <= b < 64 && 0 <= c < 64 && 0 <= d < 64 && n == FromParts(a, b, c, d, 64)
    ensures n / 262144 == a && n / 4096 % 64 == b && n / 64 % 64 == c && n % 64 == d
  {
    var q := 64 * a + b;
    LastDigit(n, 64 * q + c, d);
    LastDigit(64 * q + c, q, c);
    LastDigit(q, a, b);
    ByStepsOf64(n);
  }

  /** A well-formed sequence is the encoding of one character. */
  lemma SequenceIsChar(b: seq<Byte>) returns (c: char)
    requires SequenceLength(b) > 0
    ensures Utf8Char(c) == b[..SequenceLength(b)]
  {
    var n := CharNumber(b);
    if SequenceLength(b) == 2 {
      TwoDigits(b[0] - 0xC0, b[1] - 0x80);
    } else if SequenceLength(b) == 3 {
      ThreeDigits(b[0] - 0xE0, b[1] - 0x80, b[2] - 0x80, n);
    } else if SequenceLength(b) == 4 {
      FourDigits(b[0] - 0xF0, b[1] - 0x80, b[2] - 0x80, b[3] - 0x80, n);
    }
    c := n as char;
  }

  lemma {:induction false} ValidIsText(b: seq<Byte>) returns (s: string)
    requires IsUtf8(b)
    ensures Utf8Bytes(s) == b
  {
    s := "";
    if b != [] {
      var n := SequenceLength(b);
      var c := SequenceIsChar(b);
      var rest := ValidIsText(b[n..]);
      s := [c] + rest;
      assert s[1..] == rest && b == b[..n] + b[n..];
    }
  }

  /** The validity check accepts exactly the encodings of texts. */
  lemma ValidExactlyTexts(b: seq<Byte>)
    ensures IsUtf8(b) <==> exists s :: Utf8Bytes(s) == b
  {
    if IsUtf8(b) {
      var s := ValidIsText(b);
    } else if s :| Utf8Bytes(s) == b {
      Utf8BytesAreValid(s);
    }
  }
}
