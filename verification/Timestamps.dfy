/**
 * RFC 3339 timestamps: the formatter, the validator, and the fact last-write-wins leans on, that the text order
 * of formatted instants is their time order. A string here is its UTF-8 bytes, one character each.
 */
module Timestamps {
  import opened Text
  import opened Calendar
  import opened Protocol
  import Storage
  import Conflicts

  // ---------------------------------------------------------------- zero-padded numbers

  function Zeros(n: nat): string {
    seq(n, i => '0')
  }

  /** `{n:0w}`: the decimal digits, filled with zeros on the left up to width `w`. */
  function Pad(n: nat, w: nat): string {
    var d := Decimal(n);
    if |d| >= w then d else Zeros(w - |d|) + d
  }

  function Pow10(w: nat): nat {
    if w == 0 then 1 else 10 * Pow10(w - 1)
  }

  /** The last `w` decimal digits of `n`. */
  function Fixed(n: nat, w: nat): (s: string)
    ensures |s| == w
  {
    if w == 0 then "" else Fixed(n / 10, w - 1) + [DigitChar(n % 10)]
  }

  lemma {:induction false} FixedOfZero(w: nat)
    ensures Fixed(0, w) == Zeros(w)
  {
    if w > 0 {
      FixedOfZero(w - 1);
      assert Zeros(w) == Zeros(w - 1) + ['0'];
    }
  }

  lemma {:induction false} DecimalIsFixed(n: nat, w: nat)
    requires w > 0 && n < Pow10(w)
    ensures |Decimal(n)| <= w && Pad(n, w) == Fixed(n, w)
  {
    if n < 10 {
      FixedOfZero(w - 1);
      assert n / 10 == 0 && n % 10 == n;
      assert Fixed(n, w) == Zeros(w - 1) + [DigitChar(n)];
      if w == 1 {
        assert Zeros(0) + [DigitChar(n)] == [DigitChar(n)];
      }
    } else {
      assert n / 10 < Pow10(w - 1);
      DecimalIsFixed(n / 10, w - 1);
      var d := Decimal(n / 10);
      assert Decimal(n) == d + [DigitChar(n % 10)];
      assert Pad(n, w) == Pad(n / 10, w - 1) + [DigitChar(n % 10)];
    }
  }

  /** Fixed-width numbers compare as text the way they compare as numbers. */
  lemma {:induction false} FixedOrder(a: nat, b: nat, w: nat)
    requires a < Pow10(w) && b < Pow10(w)
    ensures Less(Fixed(a, w), Fixed(b, w)) <==> a < b
    ensures Fixed(a, w) == Fixed(b, w) <==> a == b
  {
    if w > 0 {
      var p, q := Fixed(a / 10, w - 1), Fixed(b / 10, w - 1);
      FixedOrder(a / 10, b / 10, w - 1);
      LessOfConcat(p, [DigitChar(a % 10)], q, [DigitChar(b % 10)]);
      LessOfDigits(a % 10, b % 10);
      assert Fixed(a, w)[..w - 1] == p && Fixed(b, w)[..w - 1] == q;
      assert Fixed(a, w)[w - 1] == DigitChar(a % 10) && Fixed(b, w)[w - 1] == DigitChar(b % 10);
    }
  }

  lemma LessOfDigits(a: nat, b: nat)
    requires a < 10 && b < 10
    ensures Less([DigitChar(a)], [DigitChar(b)]) <==> a < b
    ensures DigitChar(a) == DigitChar(b) <==> a == b
  {
    assert [DigitChar(a)][1..] == "" && [DigitChar(b)][1..] == "";
  }

  lemma Widths()
    ensures Pow10(2) == 100 && Pow10(3) == 1000 && Pow10(4) == 10000
  {
    assert Pow10(1) == 10 * Pow10(0) == 10;
    assert Pow10(2) == 10 * Pow10(1) == 100;
    assert Pow10(3) == 10 * Pow10(2) == 1000;
  }

  // ---------------------------------------------------------------- formatting

  datatype Parts = Parts(date: Date, hour: nat, minute: nat, second: nat)

  function PartsAt(date: Date, daySecs: nat): Parts {
    Parts(date, daySecs / 3600, (daySecs % 3600) / 60, daySecs % 60)
  }

  function PartsOf(totalSecs: nat): Parts {
    PartsAt(DaysToYmd(totalSecs / 86400), totalSecs % 86400)
  }

  /** A padded number, the character that follows it, and the rest of the text. */
  function Mark(n: nat, w: nat, mark: char, rest: string): string {
    Pad(n, w) + ([mark] + rest)
  }

  /** The part after the date: `HH:MM:SS.sssZ`. */
  function TimeStamp(p: Parts, millis: nat): string {
    Mark(p.hour, 2, ':', Mark(p.minute, 2, ':', Mark(p.second, 2, '.', Mark(millis, 3, 'Z', ""))))
  }

  /** The parts are those of a four-digit year in the calendar. */
  predicate InRange(p: Parts, millis: nat) {
    && 1 <= p.date.year < 10000 && ValidDate(p.date)
    && p.hour < 24 && p.minute < 60 && p.second < 60 && millis < 1000
  }

  /**
   * `YYYY-MM-DDTHH:MM:SS.sssZ`; the sign of a negative year takes one of the four places. The month and the day
   * of a converted date are never negative.
   */
  function Stamp(p: Parts, millis: nat): string {
    var m := if p.date.month >= 0 then p.date.month else 0;
    var d := if p.date.day >= 0 then p.date.day else 0;
    var rest := Mark(m, 2, '-', Mark(d, 2, 'T', TimeStamp(p, millis)));
    if p.date.year >= 0 then Mark(p.date.year, 4, '-', rest) else "-" + Mark(-p.date.year, 3, '-', rest)
  }

  function FormatRfc3339(totalSecs: nat, millis: nat): string {
    Stamp(PartsOf(totalSecs), millis)
  }

  // ---------------------------------------------------------------- order

  lemma MarkOrder(a: nat, b: nat, w: nat, mark: char, u: string, v: string)
    requires w > 0 && a < Pow10(w) && b < Pow10(w)
    ensures Less(Mark(a, w, mark, u), Mark(b, w, mark, v)) <==> a < b || (a == b && Less(u, v))
  {
    DecimalIsFixed(a, w);
    DecimalIsFixed(b, w);
    FixedOrder(a, b, w);
    LessIsIrreflexive([mark]);
    LessOfConcat([mark], u, [mark], v);
    LessOfConcat(Fixed(a, w), [mark] + u, Fixed(b, w), [mark] + v);
  }

  predicate TimeLess(p: Parts, ms: nat, q: Parts, ms': nat) {
    p.hour < q.hour || (p.hour == q.hour &&
      (p.minute < q.minute || (p.minute == q.minute &&
        (p.second < q.second || (p.second == q.second && ms < ms')))))
  }

  lemma TimeStampOrder(p: Parts, ms: nat, q: Parts, ms': nat)
    requires p.hour < 24 && p.minute < 60 && p.second < 60 && ms < 1000
    requires q.hour < 24 && q.minute < 60 && q.second < 60 && ms' < 1000
    ensures Less(TimeStamp(p, ms), TimeStamp(q, ms')) <==> TimeLess(p, ms, q, ms')
  {
    Widths();
    LessIsIrreflexive("");
    var u3, v3 := Mark(ms, 3, 'Z', ""), Mark(ms', 3, 'Z', "");
    var u2, v2 := Mark(p.second, 2, '.', u3), Mark(q.second, 2, '.', v3);
    var u1, v1 := Mark(p.minute, 2, ':', u2), Mark(q.minute, 2, ':', v2);
    MarkOrder(ms, ms', 3, 'Z', "", "");
    MarkOrder(p.second, q.second, 2, '.', u3, v3);
    MarkOrder(p.minute, q.minute, 2, ':', u2, v2);
    MarkOrder(p.hour, q.hour, 2, ':', u1, v1);
  }

  lemma ValidDatesAreSmall(d: Date)
    requires ValidDate(d)
    ensures 1 <= d.month <= 12 && 1 <= d.day <= 31
  {}

  /** Stamps compare as text by date, then by time of day. */
  lemma StampOrder(p: Parts, ms: nat, q: Parts, ms': nat)
    requires InRange(p, ms) && InRange(q, ms')
    ensures Less(Stamp(p, ms), Stamp(q, ms'))
            <==> Before(p.date, q.date) || (p.date == q.date && TimeLess(p, ms, q, ms'))
  {
    Widths();
    ValidDatesAreSmall(p.date);
    ValidDatesAreSmall(q.date);
    var u3, v3 := TimeStamp(p, ms), TimeStamp(q, ms');
    var u2, v2 := Mark(p.date.day, 2, 'T', u3), Mark(q.date.day, 2, 'T', v3);
    var u1, v1 := Mark(p.date.month, 2, '-', u2), Mark(q.date.month, 2, '-', v2);
    TimeStampOrder(p, ms, q, ms');
    MarkOrder(p.date.day, q.date.day, 2, 'T', u3, v3);
    MarkOrder(p.date.month, q.date.month, 2, '-', u2, v2);
    MarkOrder(p.date.year, q.date.year, 4, '-', u1, v1);
  }

  lemma DaySecondsOrder(a: nat, b: nat)
    requires a < 86400 && b < 86400
    ensures var h, m, s := a / 3600, (a % 3600) / 60, a % 60;
            var h', m', s' := b / 3600, (b % 3600) / 60, b % 60;
            && h < 24 && m < 60 && s < 60
            && (a < b <==> h < h' || (h == h' && (m < m' || (m == m' && s < s'))))
            && (a == b <==> h == h' && m == m' && s == s')
  {}

  // ---------------------------------------------------------------- four-digit years

  const YEAR_10000_DAY: nat := 2_932_897

  /** First second of the year 10000. */
  const YEAR_10000: nat := 253_402_300_800

  lemma FirstFiveDigitDay()
    ensures Civil(YEAR_10000_DAY - 1) == Date(9999, 12, 31) && Civil(YEAR_10000_DAY) == Date(10000, 1, 1)
  {
    assert DayNumber(Date(9999, 12, 31)) == YEAR_10000_DAY - 1;
    CivilReachesEveryDate(Date(9999, 12, 31));
    CivilFollowsTheCalendar(YEAR_10000_DAY - 1);
  }

  /** Days from 1970 to the end of the year 9999 have four-digit years, and narrowing does not touch them. */
  lemma YearsAreFourDigits(days: nat)
    requires days < YEAR_10000_DAY
    ensures DaysToYmd(days) == Civil(days)
    ensures ValidDate(Civil(days)) && 1970 <= Civil(days).year < 10000
  {
    YearsAreBounded(days);
    NarrowingIsHarmless(days);
    CivilFollowsTheCalendar(days);
  }

  lemma YearsAreBounded(days: nat)
    requires days < YEAR_10000_DAY
    ensures 1970 <= Civil(days).year < 10000
  {
    EpochIsNewYear1970();
    FirstFiveDigitDay();
    CivilYearsGrow(0, days);
    CivilYearsGrow(days, YEAR_10000_DAY - 1);
  }

  lemma PartsFit(totalSecs: nat, millis: nat)
    requires totalSecs < YEAR_10000 && millis < 1000
    ensures InRange(PartsOf(totalSecs), millis)
    ensures PartsOf(totalSecs) == PartsAt(Civil(totalSecs / 86400), totalSecs % 86400)
  {
    YearsAreFourDigits(totalSecs / 86400);
    DaySecondsOrder(totalSecs % 86400, totalSecs % 86400);
  }

  predicate Earlier(secs: nat, millis: nat, secs': nat, millis': nat) {
    secs < secs' || (secs == secs' && millis < millis')
  }

  lemma EarlierParts(s: nat, ms: nat, s': nat, ms': nat, d: Date, d': Date)
    requires Earlier(s, ms, s', ms')
    requires s / 86400 < s' / 86400 ==> Before(d, d')
    requires s / 86400 == s' / 86400 ==> d == d'
    ensures Before(d, d') || (d == d' && TimeLess(PartsAt(d, s % 86400), ms, PartsAt(d', s' % 86400), ms'))
  {
    DaySecondsOrder(s % 86400, s' % 86400);
  }

  lemma EarlierIsLess(s: nat, ms: nat, s': nat, ms': nat)
    requires s < YEAR_10000 && s' < YEAR_10000 && ms < 1000 && ms' < 1000 && Earlier(s, ms, s', ms')
    ensures Less(FormatRfc3339(s, ms), FormatRfc3339(s', ms'))
  {
    PartsFit(s, ms);
    PartsFit(s', ms');
    StampOrder(PartsOf(s), ms, PartsOf(s'), ms');
    if s / 86400 < s' / 86400 {
      CivilIsIncreasing(s / 86400, s' / 86400);
    }
    EarlierParts(s, ms, s', ms', Civil(s / 86400), Civil(s' / 86400));
  }

  /** Formatting is strictly order-preserving, from (seconds, millis) to text, before the year 10000. */
  lemma FormatPreservesOrder(s: nat, ms: nat, s': nat, ms': nat)
    requires s < YEAR_10000 && s' < YEAR_10000 && ms < 1000 && ms' < 1000
    ensures Less(FormatRfc3339(s, ms), FormatRfc3339(s', ms')) <==> Earlier(s, ms, s', ms')
    ensures FormatRfc3339(s, ms) == FormatRfc3339(s', ms') <==> s == s' && ms == ms'
  {
    LessIsIrreflexive(FormatRfc3339(s, ms));
    if Earlier(s, ms, s', ms') {
      EarlierIsLess(s, ms, s', ms');
    } else if Earlier(s', ms', s, ms) {
      EarlierIsLess(s', ms', s, ms);
      LessIsAsymmetric(FormatRfc3339(s', ms'), FormatRfc3339(s, ms));
    }
  }

  /** The text order agrees with the time order on all instants before second `bound`. */
  ghost predicate OrderedBefore(bound: nat) {
    forall s: nat, ms: nat, s': nat, ms': nat :: s < bound && s' < bound && ms < 1000 && ms' < 1000 ==>
      (Less(FormatRfc3339(s, ms), FormatRfc3339(s', ms')) <==> Earlier(s, ms, s', ms'))
  }

  /** Year 10000 is exactly where it stops: its five digits sort before every `9999`. */
  lemma OrderedExactlyBeforeYear10000(bound: nat)
    ensures OrderedBefore(bound) <==> bound <= YEAR_10000
  {
    if bound <= YEAR_10000 {
      forall s: nat, ms: nat, s': nat, ms': nat | s < bound && s' < bound && ms < 1000 && ms' < 1000
        ensures Less(FormatRfc3339(s, ms), FormatRfc3339(s', ms')) <==> Earlier(s, ms, s', ms')
      {
        FormatPreservesOrder(s, ms, s', ms');
      }
    } else {
      var last: nat := YEAR_10000 - 1;
      FiveDigitsSortFirst(YEAR_10000, last);
      assert !Earlier(YEAR_10000, 0, last, 0);
    }
  }

  lemma FiveDigitsSortFirst(first: nat, last: nat)
    requires first == YEAR_10000 && last == YEAR_10000 - 1
    ensures Less(FormatRfc3339(first, 0), FormatRfc3339(last, 0))
  {
    assert first / 86400 == YEAR_10000_DAY && last / 86400 == YEAR_10000_DAY - 1;
    FirstFiveDigitDay();
    NarrowingIsHarmless(first / 86400);
    NarrowingIsHarmless(last / 86400);
    LongYearIsLess(PartsOf(first), PartsOf(last));
  }

  lemma LongYearIsLess(p: Parts, q: Parts)
    requires p.date.year == 10000 && q.date.year == 9999
    ensures Less(Stamp(p, 0), Stamp(q, 0))
  {
    StampStarts(p, 0);
    StampStarts(q, 0);
    DecimalOf10000();
    assert Pad(10000, 4)[0] == Pad(10000, 4)[..1][0] == '1';
    assert Pad(9999, 4)[0] == Pad(9999, 4)[..1][0] == '9';
  }

  lemma StampStarts(p: Parts, millis: nat)
    requires p.date.year >= 0
    ensures Stamp(p, millis) != "" && Pad(p.date.year, 4) != ""
    ensures Stamp(p, millis)[0] == Pad(p.date.year, 4)[0]
  {}

  lemma DecimalOf10000()
    ensures Pad(10000, 4)[..1] == "1" && Pad(9999, 4)[..1] == "9"
  {
    assert Decimal(10) == Decimal(1) + "0" == "10";
    assert Decimal(100) == Decimal(10) + "0" == "100";
    assert Decimal(1000) == Decimal(100) + "0" == "1000";
    assert Decimal(10000) == Decimal(1000) + "0" == "10000";
    assert Decimal(99) == Decimal(9) + "9" == "99";
    assert Decimal(999) == Decimal(99) + "9" == "999";
    assert Decimal(9999) == Decimal(999) + "9" == "9999";
  }

  /** What last-write-wins relies on: between two stamped edits, the one stamped at the later instant wins. */
  lemma LaterEditWins(st: Storage.Store, m: Storage.PendingMutation, c: ConflictResponse, key: Conflicts.Opener,
                      s: nat, ms: nat, s': nat, ms': nat)
    requires s < YEAR_10000 && s' < YEAR_10000 && ms < 1000 && ms' < 1000 && (s, ms) != (s', ms')
    requires key(m.envelope).Some? && key(m.envelope).value.updatedAt == FormatRfc3339(s, ms)
    requires key(c.currentEnvelope).Some? && key(c.currentEnvelope).value.updatedAt == FormatRfc3339(s', ms')
    ensures Conflicts.LocalWins(st, m, c, Some(key)) <==> Earlier(s', ms', s, ms)
  {
    FormatPreservesOrder(s', ms', s, ms);
  }

  // ---------------------------------------------------------------- validation

  datatype Reason =
    | TooShort | NoSeparator | BadDateFormat | BadYear | BadMonth | BadDay | NoZone | BadOffset
    | BadTimeFormat | BadHour | BadMinute | BadSecond | BadFraction

  predicate IsNumber(s: string, width: nat) {
    |s| == width && AllDigits(s)
  }

  /** The text up to the first of two characters, and the text after it. */
  function Cut(s: string, a: char, b: char): Option<(string, string)> {
    if s == "" then None
    else if s[0] == a || s[0] == b then Some(("", s[1..]))
    else
      var r := Cut(s[1..], a, b);
      if r.None? then None else Some(([s[0]] + r.value.0, r.value.1))
  }

  /** The text before the last of two characters, and the text from it on. */
  function CutLast(s: string, a: char, b: char): Option<(string, string)> {
    if s == "" then None
    else if s[|s| - 1] == a || s[|s| - 1] == b then Some((s[..|s| - 1], s[|s| - 1..]))
    else
      var r := CutLast(s[..|s| - 1], a, b);
      if r.None? then None else Some((r.value.0, r.value.1 + s[|s| - 1..]))
  }

  function CheckDate(s: string): Option<Reason> {
    var parts := Split(s, '-');
    if |parts| != 3 then Some(BadDateFormat)
    else if !IsNumber(parts[0], 4) || Number(parts[0]) < 1 then Some(BadYear)
    else if !IsNumber(parts[1], 2) || !(1 <= Number(parts[1]) <= 12) then Some(BadMonth)
    else if !IsNumber(parts[2], 2) then Some(BadDay)
    else if !(1 <= Number(parts[2]) <= DaysInMonth(Number(parts[0]), Number(parts[1]))) then Some(BadDay)
    else None
  }

  function CheckOffset(s: string): Option<Reason> {
    if s == "Z" then None
    else if |s| != 6 || s[3] != ':' then Some(BadOffset)
    else if !AllDigits(s[1..3]) || !AllDigits(s[4..6]) then Some(BadOffset)
    else if Number(s[1..3]) > 23 || Number(s[4..6]) > 59 then Some(BadOffset)
    else None
  }

  function CheckTime(s: string): Option<Reason> {
    var cut := Cut(s, '.', '.');
    var hms := if cut.Some? then cut.value.0 else s;
    var parts := Split(hms, ':');
    if |parts| != 3 then Some(BadTimeFormat)
    else if !IsNumber(parts[0], 2) || !IsNumber(parts[1], 2) || !IsNumber(parts[2], 2) then Some(BadTimeFormat)
    else if Number(parts[0]) > 23 then Some(BadHour)
    else if Number(parts[1]) > 59 then Some(BadMinute)
    else if Number(parts[2]) > 60 then Some(BadSecond)
    else if cut.Some? && (cut.value.1 == "" || !AllDigits(cut.value.1)) then Some(BadFraction)
    else None
  }

  /** `None` if the timestamp is accepted, else the first check that fails. */
  function ValidateRfc3339(s: string): Option<Reason> {
    if |s| < 20 then Some(TooShort)
    else
      var halves := Cut(s, 'T', 't');
      if halves.None? then Some(NoSeparator)
      else
        var (date, rest) := halves.value;
        var bad := CheckDate(date);
        if bad.Some? then bad
        else
          var zoned := if rest != "" && (rest[|rest| - 1] == 'Z' || rest[|rest| - 1] == 'z')
                       then Some((rest[..|rest| - 1], "Z")) else CutLast(rest, '+', '-');
          if zoned.None? then Some(NoZone)
          else
            var offset := CheckOffset(zoned.value.1);
            if offset.Some? then offset else CheckTime(zoned.value.0)
  }

  lemma {:induction false} FixedIsNumber(n: nat, w: nat)
    requires n < Pow10(w)
    ensures IsNumber(Fixed(n, w), w) && Number(Fixed(n, w)) == n
  {
    if w > 0 {
      FixedIsNumber(n / 10, w - 1);
      OneMoreDigit(Fixed(n / 10, w - 1), n / 10, n % 10);
    }
  }

  lemma PadIsNumber(n: nat, w: nat)
    requires w > 0 && n < Pow10(w)
    ensures IsNumber(Pad(n, w), w) && Number(Pad(n, w)) == n
  {
    DecimalIsFixed(n, w);
    FixedIsNumber(n, w);
  }

  lemma {:induction false} CutAtFirst(a: string, mark: char, rest: string, x: char, y: char)
    requires x !in a && y !in a && (mark == x || mark == y)
    ensures Cut(a + ([mark] + rest), x, y) == Some((a, rest))
  {
    var s := a + ([mark] + rest);
    if a == "" {
      assert s == [mark] + rest;
    } else {
      assert s[1..] == a[1..] + ([mark] + rest);
      assert a[0] in a && s[0] == a[0];
      assert a == [a[0]] + a[1..];
      CutAtFirst(a[1..], mark, rest, x, y);
    }
  }

  lemma SplitInThree(a: string, b: string, c: string, sep: char)
    requires sep !in a && sep !in b && sep !in c
    ensures Split(a + ([sep] + (b + ([sep] + c))), sep) == [a, b, c]
  {
    SplitAtFirst(a, sep, b + ([sep] + c));
    SplitAtFirst(b, sep, c);
    SplitWithout(c, sep);
    assert a + ([sep] + (b + ([sep] + c))) == a + [sep] + (b + ([sep] + c));
    assert b + ([sep] + c) == b + [sep] + c;
    assert [a] + ([b] + [c]) == [a, b, c];
  }

  lemma DateIsAccepted(d: Date)
    requires ValidDate(d) && 1 <= d.year < 10000
    ensures CheckDate(Pad(d.year, 4) + (['-'] + (Pad(d.month, 2) + (['-'] + Pad(d.day, 2))))) == None
    ensures var s := Pad(d.year, 4) + (['-'] + (Pad(d.month, 2) + (['-'] + Pad(d.day, 2)))); 'T' !in s && 't' !in s
  {
    Widths();
    ValidDatesAreSmall(d);
    PadIsNumber(d.year, 4);
    PadIsNumber(d.month, 2);
    PadIsNumber(d.day, 2);
    SplitInThree(Pad(d.year, 4), Pad(d.month, 2), Pad(d.day, 2), '-');
  }

  lemma TimeIsAccepted(p: Parts, millis: nat)
    requires p.hour < 24 && p.minute < 60 && p.second < 60 && millis < 1000
    ensures var hms := Pad(p.hour, 2) + ([':'] + (Pad(p.minute, 2) + ([':'] + Pad(p.second, 2))));
            CheckTime(hms + (['.'] + Pad(millis, 3))) == None
  {
    Widths();
    PadIsNumber(p.hour, 2);
    PadIsNumber(p.minute, 2);
    PadIsNumber(p.second, 2);
    PadIsNumber(millis, 3);
    var hms := Pad(p.hour, 2) + ([':'] + (Pad(p.minute, 2) + ([':'] + Pad(p.second, 2))));
    SplitInThree(Pad(p.hour, 2), Pad(p.minute, 2), Pad(p.second, 2), ':');
    CutAtFirst(hms, '.', Pad(millis, 3), '.', '.');
  }

  lemma StampSplits(p: Parts, millis: nat)
    requires InRange(p, millis)
    ensures var date := Pad(p.date.year, 4) + (['-'] + (Pad(p.date.month, 2) + (['-'] + Pad(p.date.day, 2))));
            Stamp(p, millis) == date + (['T'] + TimeStamp(p, millis))
    ensures var hms := Pad(p.hour, 2) + ([':'] + (Pad(p.minute, 2) + ([':'] + Pad(p.second, 2))));
            TimeStamp(p, millis) == hms + (['.'] + Pad(millis, 3)) + ['Z']
  {}

  /** Every formatted instant before the year 10000 passes validation. */
  lemma FormattedIsValid(totalSecs: nat, millis: nat)
    requires totalSecs < YEAR_10000 && millis < 1000
    ensures ValidateRfc3339(FormatRfc3339(totalSecs, millis)) == None
  {
    PartsFit(totalSecs, millis);
    StampIsValid(PartsOf(totalSecs), millis);
  }

  lemma StampIsValid(p: Parts, millis: nat)
    requires InRange(p, millis)
    ensures ValidateRfc3339(Stamp(p, millis)) == None
  {
    var date := Pad(p.date.year, 4) + (['-'] + (Pad(p.date.month, 2) + (['-'] + Pad(p.date.day, 2))));
    var hms := Pad(p.hour, 2) + ([':'] + (Pad(p.minute, 2) + ([':'] + Pad(p.second, 2))));
    var time := hms + (['.'] + Pad(millis, 3));
    StampSplits(p, millis);
    StampLength(p, millis);
    DateIsAccepted(p.date);
    TimeIsAccepted(p, millis);
    CutAtFirst(date, 'T', TimeStamp(p, millis), 'T', 't');
    var rest := TimeStamp(p, millis);
    assert rest == time + ['Z'];
    assert rest[..|rest| - 1] == time && rest[|rest| - 1] == 'Z';
  }

  lemma StampLength(p: Parts, millis: nat)
    requires InRange(p, millis)
    ensures |Stamp(p, millis)| == 24
  {
    Widths();
    ValidDatesAreSmall(p.date);
    PadIsNumber(p.date.year, 4);
    PadIsNumber(p.date.month, 2);
    PadIsNumber(p.date.day, 2);
    PadIsNumber(p.hour, 2);
    PadIsNumber(p.minute, 2);
    PadIsNumber(p.second, 2);
    PadIsNumber(millis, 3);
  }

  /** The stamp's fields, place by place: every number in its columns and every mark between them. */
  lemma StampFields(p: Parts, millis: nat)
    requires InRange(p, millis)
    ensures var s := Stamp(p, millis);
            && |s| == 24
            && IsNumber(s[..4], 4) && Number(s[..4]) == p.date.year && s[4] == '-'
            && IsNumber(s[5..7], 2) && Number(s[5..7]) == p.date.month && s[7] == '-'
            && IsNumber(s[8..10], 2) && Number(s[8..10]) == p.date.day && s[10] == 'T'
            && IsNumber(s[11..13], 2) && Number(s[11..13]) == p.hour && s[13] == ':'
            && IsNumber(s[14..16], 2) && Number(s[14..16]) == p.minute && s[16] == ':'
            && IsNumber(s[17..19], 2) && Number(s[17..19]) == p.second && s[19] == '.'
            && IsNumber(s[20..23], 3) && Number(s[20..23]) == millis && s[23] == 'Z'
  {
    Widths();
    ValidDatesAreSmall(p.date);
    PadIsNumber(p.date.year, 4);
    PadIsNumber(p.date.month, 2);
    PadIsNumber(p.date.day, 2);
    PadIsNumber(p.hour, 2);
    PadIsNumber(p.minute, 2);
    PadIsNumber(p.second, 2);
    PadIsNumber(millis, 3);
    StampPlaces(Pad(p.date.year, 4), Pad(p.date.month, 2), Pad(p.date.day, 2), Pad(p.hour, 2), Pad(p.minute, 2),
                Pad(p.second, 2), Pad(millis, 3));
  }

  lemma StampPlaces(y: string, mo: string, d: string, h: string, mi: string, s: string, ms: string)
    requires |y| == 4 && |mo| == |d| == |h| == |mi| == |s| == 2 && |ms| == 3
    ensures var t := y + (['-'] + (mo + (['-'] + (d + (['T'] + (h + ([':'] + (mi + ([':'] + (s + (['.']
                     + (ms + (['Z'] + "")))))))))))));
            && |t| == 24 && t[..4] == y && t[4] == '-' && t[5..7] == mo && t[7] == '-' && t[8..10] == d && t[10] == 'T'
            && t[11..13] == h && t[13] == ':' && t[14..16] == mi && t[16] == ':' && t[17..19] == s && t[19] == '.'
            && t[20..23] == ms && t[23] == 'Z'
  {
    var t6 := ms + (['Z'] + "");
    var t5 := s + (['.'] + t6);
    var t4 := mi + ([':'] + t5);
    var t3 := h + ([':'] + t4);
    var t2 := d + (['T'] + t3);
    var t1 := mo + (['-'] + t2);
    var t := y + (['-'] + t1);
    FieldAt(t, 0, y, '-', t1);
    FieldAt(t, 5, mo, '-', t2);
    FieldAt(t, 8, d, 'T', t3);
    FieldAt(t, 11, h, ':', t4);
    FieldAt(t, 14, mi, ':', t5);
    FieldAt(t, 17, s, '.', t6);
    FieldAt(t, 20, ms, 'Z', "");
  }

  lemma FieldAt(t: string, at: nat, field: string, mark: char, rest: string)
    requires at <= |t| && t[at..] == field + ([mark] + rest)
    ensures at + |field| + 1 + |rest| == |t|
    ensures t[at..at + |field|] == field && t[at + |field|] == mark && t[at + |field| + 1..] == rest
  {
    var u := t[at..];
    assert t[at..at + |field|] == u[..|field|] && t[at + |field|] == u[|field|];
    assert t[at + |field| + 1..] == u[|field| + 1..];
  }
}
