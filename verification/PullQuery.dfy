/**
 * What the Worker reads from the query of a pull: numbers come out as they were written, the last of several pairs
 * counts, other keys change nothing, and a value that is no number refuses the whole query.
 */
module PullQuery {
  import opened Text
  import opened SyncPull

  // ---------------------------------------------------------------- numbers

  lemma {:induction false} DigitsOfConcat(x: string, y: string, acc: nat)
    ensures Digits(x + y, acc) == if Digits(x, acc).None? then None else Digits(y, Digits(x, acc).value)
    decreases |x|
  {
    if x == "" {
      assert x + y == y;
    } else {
      assert (x + y)[1..] == x[1..] + y;
      if '0' <= x[0] <= '9' {
        DigitsOfConcat(x[1..], y, 10 * acc + (x[0] as int - '0' as int));
      }
    }
  }

  /** Read from the left with an accumulator, digits are the number they stand for; anything else is refused. */
  lemma {:induction false} DigitsExactly(s: string)
    ensures Digits(s, 0) == if AllDigits(s) then Some(Number(s)) else None
    decreases |s|
  {
    if s != "" {
      var n := |s| - 1;
      DigitsExactly(s[..n]);
      DigitsOfConcat(s[..n], [s[n]], 0);
      assert s == s[..n] + [s[n]] && [s[n]][1..] == "";
      if AllDigits(s[..n]) {
        var acc := Number(s[..n]);
        assert IsDigit(s[n]) ==> Digits([s[n]], acc) == Digits("", 10 * acc + (s[n] as int - '0' as int));
      }
    }
  }

  /** A number is read as it was written, with or without a plus sign, unless it is past the maximum. */
  lemma WrittenNumberIsRead(n: nat, max: nat)
    ensures ParseUnsigned(Decimal(n), max) == if n <= max then Some(n) else None
    ensures ParseUnsigned("+" + Decimal(n), max) == if n <= max then Some(n) else None
  {
    NumberOfDecimal(n);
    DigitsExactly(Decimal(n));
    assert IsDigit(Decimal(n)[0]);
    assert ("+" + Decimal(n))[1..] == Decimal(n);
  }

  /** No digits, or anything but digits after an optional plus sign: not a number. */
  predicate IsNoNumber(v: string) {
    v == "" || v == "+" || (exists i :: 0 <= i < |v| && !IsDigit(v[i]) && !(i == 0 && v[i] == '+'))
  }

  lemma NoNumberIsRefused(v: string, max: nat)
    requires IsNoNumber(v)
    ensures ParseUnsigned(v, max) == None
  {
    var digits := if v != "" && v[0] == '+' then v[1..] else v;
    DigitsExactly(digits);
    if i :| 0 <= i < |v| && !IsDigit(v[i]) && !(i == 0 && v[i] == '+') {
      assert if v[0] == '+' then digits[i - 1] == v[i] else digits[i] == v[i];
    }
  }

  // ---------------------------------------------------------------- pairs

  lemma {:induction false} PairIsSplit(k: string, v: string)
    requires '=' !in k
    ensures KeyValue(k + ("=" + v)) == (k, v)
    decreases |k|
  {
    var pair := k + ("=" + v);
    if k == "" {
      assert pair == "=" + v && pair[1..] == v;
    } else {
      assert k[0] in k && pair[1..] == k[1..] + ("=" + v) && k == [k[0]] + k[1..];
      PairIsSplit(k[1..], v);
    }
  }

  lemma {:induction false} LoneKeyIsSplit(k: string)
    requires '=' !in k
    ensures KeyValue(k) == (k, "")
  {
    if k != "" {
      assert k[0] in k && k == [k[0]] + k[1..];
      LoneKeyIsSplit(k[1..]);
    }
  }

  /** A cursor pair sets the cursor and leaves the limit. */
  lemma CursorPairIsRead(key: string, n: nat, after: nat, limit: nat)
    requires key == "after" || key == "since" || key == "cursor"
    ensures ReadPair(key + ("=" + Decimal(n)), after, limit)
         == if n < 0x1_0000_0000_0000_0000 then Some((n, limit)) else None
  {
    PairIsSplit(key, Decimal(n));
    WrittenNumberIsRead(n, U64_MAX);
  }

  /** A limit pair sets the limit, 50 for none and at most 500, and leaves the cursor. */
  lemma LimitPairIsRead(l: nat, after: nat, limit: nat)
    ensures ReadPair("limit" + ("=" + Decimal(l)), after, limit)
         == if l < 0x1_0000_0000 then Some((after, if l == 0 then 50 else if l < 500 then l else 500)) else None
  {
    PairIsSplit("limit", Decimal(l));
    WrittenNumberIsRead(l, U32_MAX);
  }

  predicate IsKnown(key: string) {
    key == "after" || key == "since" || key == "cursor" || key == "limit"
  }

  /** Any other pair, and any other lone key, changes nothing. */
  lemma OtherPairsChangeNothing(key: string, v: string, after: nat, limit: nat)
    requires '=' !in key && !IsKnown(key)
    ensures ReadPair(key + ("=" + v), after, limit) == Some((after, limit)) == ReadPair(key, after, limit)
  {
    PairIsSplit(key, v);
    LoneKeyIsSplit(key);
  }

  /** A known key with a value that is no number, or without one, is refused. */
  lemma BadPairIsRefused(key: string, v: string, after: nat, limit: nat)
    requires IsKnown(key) && IsNoNumber(v)
    ensures ReadPair(key + ("=" + v), after, limit) == None == ReadPair(key, after, limit)
  {
    PairIsSplit(key, v);
    LoneKeyIsSplit(key);
    NoNumberIsRefused(v, U64_MAX);
    NoNumberIsRefused(v, U32_MAX);
    NoNumberIsRefused("", U64_MAX);
    NoNumberIsRefused("", U32_MAX);
  }

  // ---------------------------------------------------------------- whole queries

  /** Pairs are read one after the other, each over what came before. */
  lemma {:induction false} PairsOfConcat(ps: seq<string>, qs: seq<string>, after: nat, limit: nat)
    ensures var r := ReadPairs(ps, after, limit);
            ReadPairs(ps + qs, after, limit) == if r.None? then None else ReadPairs(qs, r.value.0, r.value.1)
    decreases |ps|
  {
    if ps == [] {
      assert ps + qs == qs;
    } else {
      assert (ps + qs)[1..] == ps[1..] + qs;
      var r := ReadPair(ps[0], after, limit);
      if r.Some? {
        PairsOfConcat(ps[1..], qs, r.value.0, r.value.1);
      }
    }
  }

  lemma OnePair(p: string, after: nat, limit: nat)
    ensures ReadPairs([p], after, limit) == ReadPair(p, after, limit)
  {
    assert [p][1..] == [];
  }

  /** What a pair at the end does to a query that was read so far: it overrides, whatever was there. */
  lemma LastPairOverrides(ps: seq<string>, p: string, after: nat, limit: nat)
    ensures var r := ReadPairs(ps, after, limit);
            ReadPairs(ps + [p], after, limit) == if r.None? then None else ReadPair(p, r.value.0, r.value.1)
  {
    PairsOfConcat(ps, [p], after, limit);
    if ReadPairs(ps, after, limit).Some? {
      var (a, l) := ReadPairs(ps, after, limit).value;
      OnePair(p, a, l);
    }
  }

  /** One bad pair anywhere refuses the query. */
  lemma OneBadPairRefuses(ps: seq<string>, key: string, v: string, qs: seq<string>)
    requires IsKnown(key) && IsNoNumber(v)
    requires forall p :: p in ps + [key + ("=" + v)] + qs ==> '&' !in p
    ensures ReadQuery(Some(Join(ps + [key + ("=" + v)] + qs, "&"))) == None
  {
    var bad := key + ("=" + v);
    SplitJoin(ps + [bad] + qs, '&');
    PairsOfConcat(ps + [bad], qs, 0, DEFAULT_LIMIT);
    LastPairOverrides(ps, bad, 0, DEFAULT_LIMIT);
    if ReadPairs(ps, 0, DEFAULT_LIMIT).Some? {
      var (a, l) := ReadPairs(ps, 0, DEFAULT_LIMIT).value;
      BadPairIsRefused(key, v, a, l);
    }
  }

  lemma {:induction false} DecimalIsPlain(n: nat, c: char)
    requires !IsDigit(c)
    ensures c !in Decimal(n)
  {
    NumberOfDecimal(n);
  }

  lemma TwoPairsSplit(p: string, q: string)
    requires '&' !in p && '&' !in q
    ensures Split(p + ("&" + q), '&') == [p, q]
  {
    SplitAtFirst(p, '&', q);
    SplitWithout(q, '&');
    assert p + ("&" + q) == p + ['&'] + q && [p] + [q] == [p, q];
  }

  /**
   * A cursor and a limit written into a query are the cursor and the limit of the page, under each of the three names
   * of the cursor and in either order; cursors past 2^53 - 1 and limits past 2^32 - 1 are refused.
   */
  lemma QueryIsRead(key: string, n: nat, l: nat)
    requires key == "after" || key == "since" || key == "cursor"
    ensures var c, m := key + ("=" + Decimal(n)), "limit" + ("=" + Decimal(l));
            var page := if n <= 9_007_199_254_740_991 && l < 0x1_0000_0000
                        then Some((n, if l == 0 then 50 else if l < 500 then l else 500)) else None;
            ReadQuery(Some(c + ("&" + m))) == page == ReadQuery(Some(m + ("&" + c)))
  {
    var c, m := key + ("=" + Decimal(n)), "limit" + ("=" + Decimal(l));
    PairIsPlain(key, n);
    PairIsPlain("limit", l);
    TwoPairQuery(c, m);
    TwoPairQuery(m, c);
    CursorFirst(key, n, l);
    LimitFirst(key, n, l);
  }

  lemma PairIsPlain(key: string, n: nat)
    requires IsKnown(key)
    ensures '&' !in key + ("=" + Decimal(n))
  {
    DecimalIsPlain(n, '&');
  }

  lemma TwoPairQuery(p: string, q: string)
    requires '&' !in p && '&' !in q
    ensures var r := ReadPairs([p, q], 0, DEFAULT_LIMIT);
            ReadQuery(Some(p + ("&" + q))) == if r.Some? && r.value.0 > 9_007_199_254_740_991 then None else r
  {
    TwoPairsSplit(p, q);
  }

  lemma CursorFirst(key: string, n: nat, l: nat)
    requires key == "after" || key == "since" || key == "cursor"
    ensures ReadPairs([key + ("=" + Decimal(n)), "limit" + ("=" + Decimal(l))], 0, DEFAULT_LIMIT)
         == if n < 0x1_0000_0000_0000_0000 && l < 0x1_0000_0000
            then Some((n, if l == 0 then 50 else if l < 500 then l else 500)) else None
  {
    var c, m := key + ("=" + Decimal(n)), "limit" + ("=" + Decimal(l));
    LastPairOverrides([c], m, 0, DEFAULT_LIMIT);
    OnePair(c, 0, DEFAULT_LIMIT);
    CursorPairIsRead(key, n, 0, DEFAULT_LIMIT);
    LimitPairIsRead(l, n, DEFAULT_LIMIT);
    assert [c] + [m] == [c, m];
  }

  lemma LimitFirst(key: string, n: nat, l: nat)
    requires key == "after" || key == "since" || key == "cursor"
    ensures ReadPairs(["limit" + ("=" + Decimal(l)), key + ("=" + Decimal(n))], 0, DEFAULT_LIMIT)
         == if n < 0x1_0000_0000_0000_0000 && l < 0x1_0000_0000
            then Some((n, if l == 0 then 50 else if l < 500 then l else 500)) else None
  {
    var c, m := key + ("=" + Decimal(n)), "limit" + ("=" + Decimal(l));
    LastPairOverrides([m], c, 0, DEFAULT_LIMIT);
    OnePair(m, 0, DEFAULT_LIMIT);
    LimitPairIsRead(l, 0, DEFAULT_LIMIT);
    CursorPairIsRead(key, n, 0, if l == 0 then 50 else if l < 500 then l else 500);
    assert [m] + [c] == [m, c];
  }

  /** Without a query, or with an empty one, the page starts at the beginning with 50 changes. */
  lemma EmptyQueryIsRead()
    ensures ReadQuery(None) == Some((0, 50)) == ReadQuery(Some(""))
  {
    OnePair("", 0, DEFAULT_LIMIT);
    assert Split("", '&') == [""];
  }

  /** A cursor written last replaces one written before. */
  lemma LaterCursorReplaces(key: string, key': string, n: nat, n': nat)
    requires (key == "after" || key == "since" || key == "cursor") && n <= 9_007_199_254_740_991
    requires (key' == "after" || key' == "since" || key' == "cursor") && n' <= 9_007_199_254_740_991
    ensures ReadQuery(Some(key + ("=" + Decimal(n)) + ("&" + (key' + ("=" + Decimal(n')))))) == Some((n', 50))
  {
    var c, c' := key + ("=" + Decimal(n)), key' + ("=" + Decimal(n'));
    PairIsPlain(key, n);
    PairIsPlain(key', n');
    TwoPairQuery(c, c');
    LastPairOverrides([c], c', 0, DEFAULT_LIMIT);
    OnePair(c, 0, DEFAULT_LIMIT);
    CursorPairIsRead(key, n, 0, DEFAULT_LIMIT);
    CursorPairIsRead(key', n', n, DEFAULT_LIMIT);
    assert [c] + [c'] == [c, c'];
  }
}
