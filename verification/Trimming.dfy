/** Trimming the ends of a text, as Rust's `trim` and `trim_matches` do. */
module Trimming {

  datatype Class = Whitespace | Just(c: char)

  /** The Unicode White_Space property, or one character. */
  predicate In(c: char, k: Class) {
    match k
    case Just(d) => c == d
    case Whitespace =>
      var n := c as int;
      9 <= n <= 13 || n == 32 || n == 0x85 || n == 0xA0 || n == 0x1680 || 0x2000 <= n <= 0x200A
      || n == 0x2028 || n == 0x2029 || n == 0x202F || n == 0x205F || n == 0x3000
  }

  function TrimStart(s: string, k: Class): string {
    if s != "" && In(s[0], k) then TrimStart(s[1..], k) else s
  }

  function TrimEnd(s: string, k: Class): string {
    if s != "" && In(s[|s| - 1], k) then TrimEnd(s[..|s| - 1], k) else s
  }

  function TrimBoth(s: string, k: Class): string {
    TrimEnd(TrimStart(s, k), k)
  }

  function Trim(s: string): string {
    TrimBoth(s, Whitespace)
  }

  predicate OnlyOf(s: string, k: Class) {
    forall i :: 0 <= i < |s| ==> In(s[i], k)
  }

  lemma {:induction false} StartOfConcat(x: string, y: string, k: Class)
    ensures TrimStart(x + y, k) == if OnlyOf(x, k) then TrimStart(y, k) else TrimStart(x, k) + y
  {
    if x == "" {
      assert x + y == y;
    } else {
      assert (x + y)[1..] == x[1..] + y && x == [x[0]] + x[1..];
      StartOfConcat(x[1..], y, k);
    }
  }

  lemma {:induction false} EndOfConcat(x: string, y: string, k: Class)
    ensures TrimEnd(x + y, k) == if OnlyOf(y, k) then TrimEnd(x, k) else x + TrimEnd(y, k)
  {
    if y == "" {
      assert x + y == x;
    } else {
      var n := |y| - 1;
      assert (x + y)[..|x| + n] == x + y[..n] && y == y[..n] + [y[n]];
      EndOfConcat(x, y[..n], k);
    }
  }

  lemma {:induction false} StartOfNothing(s: string, k: Class)
    ensures TrimStart(s, k) == "" <==> OnlyOf(s, k)
  {
    if s != "" {
      assert s == [s[0]] + s[1..];
      StartOfNothing(s[1..], k);
    }
  }

  lemma {:induction false} EndOfNothing(s: string, k: Class)
    ensures TrimEnd(s, k) == "" <==> OnlyOf(s, k)
  {
    if s != "" {
      assert s == s[..|s| - 1] + [s[|s| - 1]];
      EndOfNothing(s[..|s| - 1], k);
    }
  }

  /** Trailing characters of the class do not matter. */
  lemma TrimIgnoresTail(s: string, w: string, k: Class)
    requires OnlyOf(w, k)
    ensures TrimBoth(s + w, k) == TrimBoth(s, k)
  {
    StartOfConcat(s, w, k);
    StartOfNothing(w, k);
    StartOfNothing(s, k);
    EndOfConcat(TrimStart(s, k), w, k);
  }

  lemma TrimIgnoresHead(w: string, s: string, k: Class)
    requires OnlyOf(w, k)
    ensures TrimBoth(w + s, k) == TrimBoth(s, k)
  {
    StartOfConcat(w, s, k);
  }

  predicate Bare(s: string, k: Class) {
    s != "" && !In(s[0], k) && !In(s[|s| - 1], k)
  }

  lemma BareIsTrimmed(s: string, k: Class)
    requires Bare(s, k)
    ensures TrimBoth(s, k) == s
  {}

  lemma {:induction false} StartIsBare(s: string, k: Class)
    ensures TrimStart(s, k) != "" ==> !In(TrimStart(s, k)[0], k)
    ensures |TrimStart(s, k)| <= |s| && s[|s| - |TrimStart(s, k)|..] == TrimStart(s, k)
  {
    if s != "" {
      StartIsBare(s[1..], k);
    }
  }

  lemma {:induction false} EndIsBare(s: string, k: Class)
    ensures TrimEnd(s, k) != "" ==> !In(TrimEnd(s, k)[|TrimEnd(s, k)| - 1], k)
    ensures TrimEnd(s, k) <= s && OnlyOf(s[|TrimEnd(s, k)|..], k)
  {
    if s != "" {
      var n := |s| - 1;
      EndIsBare(s[..n], k);
      if In(s[n], k) {
        assert s[|TrimEnd(s, k)|..] == s[..n][|TrimEnd(s, k)|..] + [s[n]];
      }
    }
  }

  /** What trimming leaves is bare or empty; so a text is its own trimming exactly then. */
  lemma TrimmedIsBare(s: string, k: Class)
    ensures TrimBoth(s, k) == s <==> s == "" || Bare(s, k)
  {
    var t := TrimStart(s, k);
    StartIsBare(s, k);
    EndIsBare(t, k);
  }

  lemma TrimAfterEnd(s: string, k: Class)
    ensures TrimBoth(TrimEnd(s, k), k) == TrimBoth(s, k)
  {
    EndIsBare(s, k);
    var n := |TrimEnd(s, k)|;
    assert s == s[..n] + s[n..] && s[..n] == TrimEnd(s, k);
    TrimIgnoresTail(s[..n], s[n..], k);
  }

  lemma TrimShortens(s: string, k: Class)
    ensures |TrimBoth(s, k)| <= |s|
    ensures |TrimBoth(s, k)| == |s| ==> TrimBoth(s, k) == s
  {
    StartIsBare(s, k);
    EndIsBare(TrimStart(s, k), k);
  }
}
