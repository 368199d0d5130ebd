/**
 * All the ways of writing a timestamp that the validator accepts, and no others: with or without a fraction, in UTC or
 * with an offset, with capital or small letters, leap seconds included. Last-write-wins compares the written text; for
 * two ways of writing that order is the order in time exactly if they are the same way.
 */
module StampShapes {
  import opened Text
  import opened Calendar
  import opened Timestamps
  import opened Protocol
  import Storage
  import Conflicts

  datatype Zone = Utc(letter: char) | Plus(hours: nat, minutes: nat) | Minus(hours: nat, minutes: nat)

  /** How a timestamp is written: the separator, the number of fraction digits, the zone. */
  datatype Shape = Shape(separator: char, digits: nat, zone: Zone)

  /** What is written: a date and time of day in that zone, and the fraction's digits as a number. */
  datatype Written = Written(parts: Parts, fraction: nat)

  predicate ValidZone(z: Zone) {
    match z
    case Utc(letter) => letter == 'Z' || letter == 'z'
    case Plus(h, m) => h < 24 && m < 60
    case Minus(h, m) => h < 24 && m < 60
  }

  predicate ValidShape(s: Shape) {
    (s.separator == 'T' || s.separator == 't') && ValidZone(s.zone)
  }

  /** Years 1 to 9999; a minute may have a sixty-first second. */
  predicate Good(w: Written, s: Shape) {
    && 1 <= w.parts.date.year < 10000 && ValidDate(w.parts.date)
    && w.parts.hour < 24 && w.parts.minute < 60 && w.parts.second <= 60
    && w.fraction < Pow10(s.digits)
  }

  function ClockText(h: nat, m: nat): string {
    Pad(h, 2) + ([':'] + Pad(m, 2))
  }

  function ZoneText(z: Zone): string {
    match z
    case Utc(letter) => [letter]
    case Plus(h, m) => ['+'] + ClockText(h, m)
    case Minus(h, m) => ['-'] + ClockText(h, m)
  }

  function FractionText(fraction: nat, digits: nat): string {
    if digits == 0 then "" else ['.'] + Fixed(fraction, digits)
  }

  function TimeText(w: Written, s: Shape): string {
    Mark(w.parts.hour, 2, ':', Mark(w.parts.minute, 2, ':', Pad(w.parts.second, 2)
      + (FractionText(w.fraction, s.digits) + ZoneText(s.zone))))
  }

  function Written3339(w: Written, s: Shape): string
    requires w.parts.date.year >= 0 && w.parts.date.month >= 0 && w.parts.date.day >= 0
  {
    Mark(w.parts.date.year, 4, '-',
         Mark(w.parts.date.month, 2, '-', Mark(w.parts.date.day, 2, s.separator, TimeText(w, s))))
  }

  // ---------------------------------------------------------------- the instant

  function OffsetMinutes(z: Zone): int {
    match z
    case Utc(_) => 0
    case Plus(h, m) => 60 * h + m
    case Minus(h, m) => 0 - 60 * h - m
  }

  function LocalMinutes(p: Parts): int {
    1440 * DayNumber(p.date) + 60 * p.hour + p.minute
  }

  function UtcMinutes(w: Written, s: Shape): int {
    LocalMinutes(w.parts) - OffsetMinutes(s.zone)
  }

  /** Earlier in time: by the minute in UTC, then by the second within it, then by fraction. */
  predicate Sooner(w: Written, s: Shape, w': Written, s': Shape) {
    || UtcMinutes(w, s) < UtcMinutes(w', s')
    || (UtcMinutes(w, s) == UtcMinutes(w', s')
        && (|| w.parts.second < w'.parts.second
            || (w.parts.second == w'.parts.second && w.fraction * Pow10(s'.digits) < w'.fraction * Pow10(s.digits))))
  }

  // ---------------------------------------------------------------- one shape

  lemma PadOrder(a: nat, b: nat, n: nat, u: string, v: string)
    requires n > 0 && a < Pow10(n) && b < Pow10(n)
    ensures Less(Pad(a, n) + u, Pad(b, n) + v) <==> a < b || (a == b && Less(u, v))
  {
    DecimalIsFixed(a, n);
    DecimalIsFixed(b, n);
    FixedOrder(a, b, n);
    LessOfConcat(Fixed(a, n), u, Fixed(b, n), v);
  }

  lemma SuffixOrder(f: nat, f': nat, digits: nat, zone: string)
    requires f < Pow10(digits) && f' < Pow10(digits)
    ensures Less(FractionText(f, digits) + zone, FractionText(f', digits) + zone) <==> f < f'
  {
    LessIsIrreflexive(zone);
    if digits == 0 {
      assert "" + zone == zone;
    } else {
      FixedOrder(f, f', digits);
      LessIsIrreflexive(['.']);
      LessOfConcat(['.'], Fixed(f, digits), ['.'], Fixed(f', digits));
      LessOfConcat(['.'] + Fixed(f, digits), zone, ['.'] + Fixed(f', digits), zone);
      assert (['.'] + Fixed(f, digits))[1..] == Fixed(f, digits)
          && (['.'] + Fixed(f', digits))[1..] == Fixed(f', digits);
    }
  }

  predicate ClockBefore(p: Parts, q: Parts) {
    p.hour < q.hour || (p.hour == q.hour && (p.minute < q.minute || (p.minute == q.minute && p.second < q.second)))
  }

  predicate SameClock(p: Parts, q: Parts) {
    p.hour == q.hour && p.minute == q.minute && p.second == q.second
  }

  /** Up to the seconds all shapes compare alike; then what follows decides. */
  lemma TimeTextOrder(w: Written, s: Shape, w': Written, s': Shape)
    requires w.parts.hour < 24 && w.parts.minute < 60 && w.parts.second <= 60
    requires w'.parts.hour < 24 && w'.parts.minute < 60 && w'.parts.second <= 60
    ensures Less(TimeText(w, s), TimeText(w', s')) <==>
              || ClockBefore(w.parts, w'.parts)
              || (SameClock(w.parts, w'.parts)
                  && Less(FractionText(w.fraction, s.digits) + ZoneText(s.zone),
                          FractionText(w'.fraction, s'.digits) + ZoneText(s'.zone)))
  {
    Widths();
    var p, q := w.parts, w'.parts;
    var u3 := FractionText(w.fraction, s.digits) + ZoneText(s.zone);
    var v3 := FractionText(w'.fraction, s'.digits) + ZoneText(s'.zone);
    var u2, v2 := Pad(p.second, 2) + u3, Pad(q.second, 2) + v3;
    var u1, v1 := Mark(p.minute, 2, ':', u2), Mark(q.minute, 2, ':', v2);
    PadOrder(p.second, q.second, 2, u3, v3);
    MarkOrder(p.minute, q.minute, 2, ':', u2, v2);
    MarkOrder(p.hour, q.hour, 2, ':', u1, v1);
  }

  lemma TextOrder(w: Written, s: Shape, w': Written, s': Shape)
    requires Good(w, s) && Good(w', s') && s.separator == s'.separator
    ensures Less(Written3339(w, s), Written3339(w', s')) <==>
              || Before(w.parts.date, w'.parts.date)
              || (w.parts.date == w'.parts.date && Less(TimeText(w, s), TimeText(w', s')))
  {
    Widths();
    var d, e := w.parts.date, w'.parts.date;
    ValidDatesAreSmall(d);
    ValidDatesAreSmall(e);
    var u2, v2 := Mark(d.day, 2, s.separator, TimeText(w, s)), Mark(e.day, 2, s.separator, TimeText(w', s'));
    var u1, v1 := Mark(d.month, 2, '-', u2), Mark(e.month, 2, '-', v2);
    MarkOrder(d.day, e.day, 2, s.separator, TimeText(w, s), TimeText(w', s'));
    MarkOrder(d.month, e.month, 2, '-', u2, v2);
    MarkOrder(d.year, e.year, 4, '-', u1, v1);
  }

  /** Day numbers are in the order of the dates. */
  lemma DatesInOrder(d: Date, e: Date)
    requires ValidDate(d) && ValidDate(e)
    ensures Before(d, e) <==> DayNumber(d) < DayNumber(e)
    ensures d == e <==> DayNumber(d) == DayNumber(e)
  {
    CivilReachesEveryDate(d);
    CivilReachesEveryDate(e);
    if DayNumber(d) < DayNumber(e) {
      CivilIsIncreasing(DayNumber(d), DayNumber(e));
    } else if DayNumber(e) < DayNumber(d) {
      CivilIsIncreasing(DayNumber(e), DayNumber(d));
    }
  }

  lemma LocalOrder(p: Parts, q: Parts, m: int, n: int)
    requires p.hour < 24 && p.minute < 60 && q.hour < 24 && q.minute < 60
    ensures var a, b := 1440 * m + 60 * p.hour + p.minute, 1440 * n + 60 * q.hour + q.minute;
            && (a < b <==> m < n || (m == n && (p.hour < q.hour || (p.hour == q.hour && p.minute < q.minute))))
            && (a == b <==> m == n && p.hour == q.hour && p.minute == q.minute)
  {}

  /** Written the same way, timestamps compare as text exactly as they do in time. */
  lemma SameShapeOrder(w: Written, w': Written, s: Shape)
    requires Good(w, s) && Good(w', s)
    ensures Less(Written3339(w, s), Written3339(w', s)) <==> Sooner(w, s, w', s)
  {
    TextOrder(w, s, w', s);
    TimeTextOrder(w, s, w', s);
    SuffixOrder(w.fraction, w'.fraction, s.digits, ZoneText(s.zone));
    DatesInOrder(w.parts.date, w'.parts.date);
    LocalOrder(w.parts, w'.parts, DayNumber(w.parts.date), DayNumber(w'.parts.date));
    PowersArePositive(s.digits);
    ScalesAlike(w.fraction, w'.fraction, Pow10(s.digits));
  }

  lemma ScalesAlike(a: nat, b: nat, n: nat)
    requires n > 0
    ensures a * n < b * n <==> a < b
  {
    if a < b {
      assert b * n == a * n + (b - a) * n;
    } else {
      assert a * n == b * n + (a - b) * n;
    }
  }

  lemma {:induction false} PowersArePositive(n: nat)
    ensures Pow10(n) > 0
  {
    if n > 0 {
      PowersArePositive(n - 1);
    }
  }

  /** Between two edits stamped the same way, last-write-wins picks the later one. */
  lemma LaterStampWins(st: Storage.Store, m: Storage.PendingMutation, c: ConflictResponse, key: Conflicts.Opener,
                       w: Written, w': Written, s: Shape)
    requires Good(w, s) && Good(w', s) && Written3339(w, s) != Written3339(w', s)
    requires key(m.envelope).Some? && key(m.envelope).value.updatedAt == Written3339(w, s)
    requires key(c.currentEnvelope).Some? && key(c.currentEnvelope).value.updatedAt == Written3339(w', s)
    ensures Conflicts.LocalWins(st, m, c, Some(key)) <==> Sooner(w', s, w, s)
  {
    SameShapeOrder(w', w, s);
  }

  // ---------------------------------------------------------------- two shapes

  /** Whatever is written in the two shapes, the text order is the order in time. */
  ghost predicate Agree(s: Shape, s': Shape) {
    forall w, w' :: Good(w, s) && Good(w', s') ==>
      && (Less(Written3339(w, s), Written3339(w', s')) <==> Sooner(w, s, w', s'))
      && (Less(Written3339(w', s'), Written3339(w, s)) <==> Sooner(w', s', w, s))
  }

  const LAST_OF_1999 := Written(Parts(Date(1999, 12, 31), 23, 59, 59), 0)
  const FIRST_OF_2000 := Written(Parts(Date(2000, 1, 1), 0, 0, 0), 0)

  lemma TurnOfTheYear(s: Shape)
    ensures Good(LAST_OF_1999, s) && Good(FIRST_OF_2000, s)
    ensures LocalMinutes(FIRST_OF_2000.parts) == LocalMinutes(LAST_OF_1999.parts) + 1
  {
    PowersArePositive(s.digits);
    assert DayNumber(Date(2000, 1, 1)) == 10957 && DayNumber(Date(1999, 12, 31)) == 10956;
  }

  lemma YearDecides(s: Shape, s': Shape)
    ensures Less(Written3339(LAST_OF_1999, s), Written3339(FIRST_OF_2000, s'))
  {
    Widths();
    var d, e := LAST_OF_1999.parts.date, FIRST_OF_2000.parts.date;
    var u := Mark(d.month, 2, '-', Mark(d.day, 2, s.separator, TimeText(LAST_OF_1999, s)));
    var v := Mark(e.month, 2, '-', Mark(e.day, 2, s'.separator, TimeText(FIRST_OF_2000, s')));
    MarkOrder(d.year, e.year, 4, '-', u, v);
  }

  /** With a greater offset, the first second of 2000 comes before the last of 1999, and sorts behind it. */
  lemma OffsetsSortAgainstTime(s: Shape, s': Shape)
    requires OffsetMinutes(s.zone) < OffsetMinutes(s'.zone)
    ensures Good(LAST_OF_1999, s) && Good(FIRST_OF_2000, s')
    ensures Less(Written3339(LAST_OF_1999, s), Written3339(FIRST_OF_2000, s'))
    ensures Sooner(FIRST_OF_2000, s', LAST_OF_1999, s) && !Sooner(LAST_OF_1999, s, FIRST_OF_2000, s')
  {
    TurnOfTheYear(s);
    TurnOfTheYear(s');
    YearDecides(s, s');
  }

  lemma CancelMark(n: nat, k: nat, m: char, u: string, m': char, v: string)
    requires Mark(n, k, m, u) == Mark(n, k, m', v)
    ensures m == m' && u == v
  {
    var p := Pad(n, k);
    assert (p + ([m] + u))[|p|..] == [m] + u && (p + ([m'] + v))[|p|..] == [m'] + v;
    assert ([m] + u)[0] == m && ([m'] + v)[0] == m' && ([m] + u)[1..] == u && ([m'] + v)[1..] == v;
  }

  lemma CancelText(p: string, u: string, v: string)
    requires p + u == p + v
    ensures u == v
  {
    assert (p + u)[|p|..] == u && (p + v)[|p|..] == v;
  }

  lemma ZoneStarts(z: Zone)
    requires ValidZone(z)
    ensures ZoneText(z) != "" && ZoneText(z)[0] in {'Z', 'z', '+', '-'}
  {}

  lemma ClockTextsDiffer(h: nat, m: nat, h': nat, m': nat)
    requires h < 24 && m < 60 && h' < 24 && m' < 60 && ClockText(h, m) == ClockText(h', m')
    ensures h == h' && m == m'
  {
    Widths();
    LessIsIrreflexive(ClockText(h, m));
    LessIsIrreflexive("");
    assert Pad(m, 2) + "" == Pad(m, 2) && Pad(m', 2) + "" == Pad(m', 2);
    MarkOrder(h, h', 2, ':', Pad(m, 2), Pad(m', 2));
    MarkOrder(h', h, 2, ':', Pad(m', 2), Pad(m, 2));
    PadOrder(m, m', 2, "", "");
    PadOrder(m', m, 2, "", "");
  }

  lemma ZoneTextsDiffer(z: Zone, z': Zone)
    requires ValidZone(z) && ValidZone(z') && ZoneText(z) == ZoneText(z')
    ensures z == z'
  {
    var t, t' := ZoneText(z), ZoneText(z');
    assert t[0] == t'[0];
    if !z.Utc? && !z'.Utc? {
      assert t[1..] == ClockText(z.hours, z.minutes) && t'[1..] == ClockText(z'.hours, z'.minutes);
      ClockTextsDiffer(z.hours, z.minutes, z'.hours, z'.minutes);
    }
  }

  lemma ZerosAre(n: nat, i: nat)
    requires i < n
    ensures Fixed(0, n)[i] == '0'
  {
    FixedOfZero(n);
  }

  lemma LongerFractionDiffers(d: nat, d': nat, z: string, z': string)
    requires 0 < d < d' && z != "" && z[0] != '0'
    ensures FractionText(0, d) + z != FractionText(0, d') + z'
  {
    ZerosAre(d', d);
    assert (FractionText(0, d) + z)[1 + d] == z[0];
    assert (FractionText(0, d') + z')[1 + d] == Fixed(0, d')[d];
  }

  lemma SuffixesDiffer(d: nat, z: Zone, d': nat, z': Zone)
    requires ValidZone(z) && ValidZone(z')
    requires FractionText(0, d) + ZoneText(z) == FractionText(0, d') + ZoneText(z')
    ensures d == d' && z == z'
  {
    ZoneStarts(z);
    ZoneStarts(z');
    var a, b := FractionText(0, d) + ZoneText(z), FractionText(0, d') + ZoneText(z');
    assert d > 0 ==> a[0] == '.';
    assert d' > 0 ==> b[0] == '.';
    assert d == 0 ==> a == ZoneText(z);
    assert d' == 0 ==> b == ZoneText(z');
    if 0 < d < d' {
      LongerFractionDiffers(d, d', ZoneText(z), ZoneText(z'));
    } else if 0 < d' < d {
      LongerFractionDiffers(d', d, ZoneText(z'), ZoneText(z));
    } else if d == d' {
      CancelText(FractionText(0, d), ZoneText(z), ZoneText(z'));
      ZoneTextsDiffer(z, z');
    }
  }

  /** The same instant, written in two shapes, is two texts. */
  lemma ShapesWriteDifferently(s: Shape, s': Shape)
    requires ValidShape(s) && ValidShape(s') && Written3339(FIRST_OF_2000, s) == Written3339(FIRST_OF_2000, s')
    ensures s == s'
  {
    var p := FIRST_OF_2000.parts;
    var t, t' := TimeText(FIRST_OF_2000, s), TimeText(FIRST_OF_2000, s');
    var u, u' := Mark(p.date.day, 2, s.separator, t), Mark(p.date.day, 2, s'.separator, t');
    CancelMark(p.date.year, 4, '-', Mark(p.date.month, 2, '-', u), '-', Mark(p.date.month, 2, '-', u'));
    CancelMark(p.date.month, 2, '-', u, '-', u');
    CancelMark(p.date.day, 2, s.separator, t, s'.separator, t');
    var f, f' := FractionText(0, s.digits) + ZoneText(s.zone), FractionText(0, s'.digits) + ZoneText(s'.zone);
    CancelMark(p.hour, 2, ':', Mark(p.minute, 2, ':', Pad(p.second, 2) + f), ':',
               Mark(p.minute, 2, ':', Pad(p.second, 2) + f'));
    CancelMark(p.minute, 2, ':', Pad(p.second, 2) + f, ':', Pad(p.second, 2) + f');
    CancelText(Pad(p.second, 2), f, f');
    SuffixesDiffer(s.digits, s.zone, s'.digits, s'.zone);
  }

  lemma SameOffsetDisagrees(s: Shape, s': Shape)
    requires ValidShape(s) && ValidShape(s') && s != s' && OffsetMinutes(s.zone) == OffsetMinutes(s'.zone)
    ensures !Agree(s, s')
  {
    TurnOfTheYear(s);
    TurnOfTheYear(s');
    if Written3339(FIRST_OF_2000, s) == Written3339(FIRST_OF_2000, s') {
      ShapesWriteDifferently(s, s');
    }
    LessIsTotal(Written3339(FIRST_OF_2000, s), Written3339(FIRST_OF_2000, s'));
    assert !Sooner(FIRST_OF_2000, s, FIRST_OF_2000, s') && !Sooner(FIRST_OF_2000, s', FIRST_OF_2000, s);
  }

  /**
   * For two accepted ways of writing timestamps, the text order is always the order in time exactly if they are the
   * same.
   */
  lemma ShapesAgreeIff(s: Shape, s': Shape)
    requires ValidShape(s) && ValidShape(s')
    ensures Agree(s, s') <==> s == s'
  {
    if s == s' {
      forall w, w' | Good(w, s) && Good(w', s)
        ensures Less(Written3339(w, s), Written3339(w', s)) <==> Sooner(w, s, w', s)
        ensures Less(Written3339(w', s), Written3339(w, s)) <==> Sooner(w', s, w, s)
      {
        SameShapeOrder(w, w', s);
        SameShapeOrder(w', w, s);
      }
    } else if OffsetMinutes(s.zone) < OffsetMinutes(s'.zone) {
      OffsetsSortAgainstTime(s, s');
    } else if OffsetMinutes(s'.zone) < OffsetMinutes(s.zone) {
      OffsetsSortAgainstTime(s', s);
    } else {
      SameOffsetDisagrees(s, s');
    }
  }

  // ---------------------------------------------------------------- all of them are accepted

  lemma {:induction false} CutLastAt(a: string, mark: char, rest: string, x: char, y: char)
    requires (mark == x || mark == y) && x !in rest && y !in rest
    ensures CutLast(a + ([mark] + rest), x, y) == Some((a, [mark] + rest))
  {
    var s := a + ([mark] + rest);
    if rest == "" {
      assert s[..|s| - 1] == a && s[|s| - 1..] == [mark];
    } else {
      var n := |rest| - 1;
      assert rest[n] in rest && s[|s| - 1] == rest[n];
      assert forall c :: c in rest[..n] ==> c in rest;
      assert s[..|s| - 1] == a + ([mark] + rest[..n]) && s[|s| - 1..] == [rest[n]];
      CutLastAt(a, mark, rest[..n], x, y);
      assert ([mark] + rest[..n]) + [rest[n]] == [mark] + rest;
    }
  }

  lemma ClockIsPlain(h: nat, m: nat)
    requires h < 24 && m < 60
    ensures |ClockText(h, m)| == 5 && '+' !in ClockText(h, m) && '-' !in ClockText(h, m)
    ensures ClockText(h, m)[2] == ':'
    ensures IsNumber(ClockText(h, m)[..2], 2) && Number(ClockText(h, m)[..2]) == h
    ensures IsNumber(ClockText(h, m)[3..], 2) && Number(ClockText(h, m)[3..]) == m
  {
    Widths();
    PadIsNumber(h, 2);
    PadIsNumber(m, 2);
    var t := ClockText(h, m);
    assert t[..2] == Pad(h, 2) && t[3..] == Pad(m, 2);
  }

  lemma OffsetIsAccepted(sign: char, h: nat, m: nat)
    requires h < 24 && m < 60
    ensures CheckOffset([sign] + ClockText(h, m)) == None
  {
    ClockIsPlain(h, m);
    var t, z := ClockText(h, m), [sign] + ClockText(h, m);
    assert z[1..3] == t[..2] && z[4..6] == t[3..] && z[3] == t[2];
  }

  lemma FixedIsDigits(n: nat, k: nat)
    requires n < Pow10(k) && k > 0
    ensures AllDigits(Fixed(n, k)) && Fixed(n, k) != ""
  {
    FixedIsNumber(n, k);
  }

  /** The part before the zone. */
  function PlainTime(w: Written, s: Shape): string {
    Pad(w.parts.hour, 2) + ([':'] + (Pad(w.parts.minute, 2) + ([':'] + Pad(w.parts.second, 2))))
  }

  lemma PlainTimeIsAccepted(w: Written, s: Shape)
    requires Good(w, s)
    ensures CheckTime(PlainTime(w, s) + FractionText(w.fraction, s.digits)) == None
  {
    Widths();
    PadIsNumber(w.parts.hour, 2);
    PadIsNumber(w.parts.minute, 2);
    PadIsNumber(w.parts.second, 2);
    SplitInThree(Pad(w.parts.hour, 2), Pad(w.parts.minute, 2), Pad(w.parts.second, 2), ':');
    var hms := PlainTime(w, s);
    assert '.' !in hms;
    if s.digits == 0 {
      assert hms + "" == hms;
      NoCut(hms, '.', '.');
    } else {
      FixedIsDigits(w.fraction, s.digits);
      CutAtFirst(hms, '.', Fixed(w.fraction, s.digits), '.', '.');
    }
  }

  lemma {:induction false} NoCut(s: string, a: char, b: char)
    requires a !in s && b !in s
    ensures Cut(s, a, b) == None
  {
    if s != "" {
      assert s[0] in s && forall c :: c in s[1..] ==> c in s;
      NoCut(s[1..], a, b);
    }
  }

  /** Five pieces with two marks between the first three, grouped from either end. */
  lemma Regrouped(a: string, b: string, c: string, mark: char, f: string, z: string)
    ensures ((a + ([mark] + (b + ([mark] + c)))) + f) + z == a + ([mark] + (b + ([mark] + (c + (f + z)))))
  {
    var u := [mark] + c;
    var v := [mark] + (b + u);
    assert (u + f) + z == [mark] + (c + (f + z));
    assert (v + f) + z == [mark] + (b + ((u + f) + z));
    assert ((a + v) + f) + z == a + ((v + f) + z);
  }

  lemma TimeTextIs(w: Written, s: Shape)
    ensures TimeText(w, s) == (PlainTime(w, s) + FractionText(w.fraction, s.digits)) + ZoneText(s.zone)
  {
    Regrouped(Pad(w.parts.hour, 2), Pad(w.parts.minute, 2), Pad(w.parts.second, 2), ':',
              FractionText(w.fraction, s.digits), ZoneText(s.zone));
  }

  /** The zone is found at the end and accepted. */
  lemma ZoneIsFound(time: string, z: Zone)
    requires ValidZone(z)
    ensures var rest := time + ZoneText(z);
            var zoned := if rest != "" && (rest[|rest| - 1] == 'Z' || rest[|rest| - 1] == 'z')
                         then Some((rest[..|rest| - 1], "Z")) else CutLast(rest, '+', '-');
            zoned.Some? && zoned.value.0 == time && CheckOffset(zoned.value.1) == None
  {
    var rest := time + ZoneText(z);
    match z
    case Utc(letter) =>
      assert rest[|rest| - 1] == letter && rest[..|rest| - 1] == time;
    case Plus(h, m) =>
      ClockIsPlain(h, m);
      OffsetEndsInDigit(time, '+', h, m);
      CutLastAt(time, '+', ClockText(h, m), '+', '-');
      OffsetIsAccepted('+', h, m);
    case Minus(h, m) =>
      ClockIsPlain(h, m);
      OffsetEndsInDigit(time, '-', h, m);
      CutLastAt(time, '-', ClockText(h, m), '+', '-');
      OffsetIsAccepted('-', h, m);
  }

  lemma OffsetEndsInDigit(time: string, sign: char, h: nat, m: nat)
    requires h < 24 && m < 60
    ensures var rest := time + ([sign] + ClockText(h, m)); rest != "" && IsDigit(rest[|rest| - 1])
  {
    ClockIsPlain(h, m);
    var t := ClockText(h, m);
    assert t[3..][1] == t[4];
  }

  lemma DateGrouped(y: string, m: string, d: string, rest: string)
    ensures y + (['-'] + (m + (['-'] + (d + rest)))) == (y + (['-'] + (m + (['-'] + d)))) + rest
  {
    Regrouped(y, m, d, '-', "", rest);
    var date := y + (['-'] + (m + (['-'] + d)));
    assert date + "" == date && "" + rest == rest;
  }

  lemma DateTextIs(w: Written, s: Shape)
    requires Good(w, s)
    ensures var d := w.parts.date;
            var date := Pad(d.year, 4) + (['-'] + (Pad(d.month, 2) + (['-'] + Pad(d.day, 2))));
            Written3339(w, s) == date + ([s.separator] + TimeText(w, s))
  {
    var d := w.parts.date;
    DateGrouped(Pad(d.year, 4), Pad(d.month, 2), Pad(d.day, 2), [s.separator] + TimeText(w, s));
  }

  lemma DateIsTen(d: Date)
    requires ValidDate(d) && 1 <= d.year < 10000
    ensures |Pad(d.year, 4) + (['-'] + (Pad(d.month, 2) + (['-'] + Pad(d.day, 2))))| == 10
  {
    Widths();
    ValidDatesAreSmall(d);
    PadIsNumber(d.year, 4);
    PadIsNumber(d.month, 2);
    PadIsNumber(d.day, 2);
  }

  lemma TimeTextIsLong(w: Written, s: Shape)
    requires Good(w, s) && ValidShape(s)
    ensures |TimeText(w, s)| >= 9
  {
    Widths();
    TimeTextIs(w, s);
    ZoneStarts(s.zone);
    PadIsNumber(w.parts.hour, 2);
    PadIsNumber(w.parts.minute, 2);
    PadIsNumber(w.parts.second, 2);
  }

  /** Three accepted parts make an accepted whole. */
  lemma PartsAreAccepted(date: string, separator: char, time: string, z: Zone)
    requires |date| == 10 && 'T' !in date && 't' !in date && CheckDate(date) == None
    requires (separator == 'T' || separator == 't') && ValidZone(z)
    requires CheckTime(time) == None && |time + ZoneText(z)| >= 9
    ensures ValidateRfc3339(date + ([separator] + (time + ZoneText(z)))) == None
  {
    CutAtFirst(date, separator, time + ZoneText(z), 'T', 't');
    ZoneIsFound(time, z);
  }

  /** Every timestamp written in a valid shape passes validation. */
  lemma WrittenIsValid(w: Written, s: Shape)
    requires Good(w, s) && ValidShape(s)
    ensures ValidateRfc3339(Written3339(w, s)) == None
  {
    var d := w.parts.date;
    DateTextIs(w, s);
    DateIsTen(d);
    TimeTextIsLong(w, s);
    DateIsAccepted(d);
    TimeTextIs(w, s);
    PlainTimeIsAccepted(w, s);
    PartsAreAccepted(Pad(d.year, 4) + (['-'] + (Pad(d.month, 2) + (['-'] + Pad(d.day, 2)))), s.separator,
                     PlainTime(w, s) + FractionText(w.fraction, s.digits), s.zone);
  }

  // ---------------------------------------------------------------- and nothing else is

  /** What was cut at a mark is the text around it. */
  lemma {:induction false} CutRejoins(s: string, x: char, y: char)
    requires Cut(s, x, y).Some?
    ensures var (a, rest) := Cut(s, x, y).value;
            |a| < |s| && (s[|a|] == x || s[|a|] == y) && s == a + ([s[|a|]] + rest)
  {
    if s[0] != x && s[0] != y {
      CutRejoins(s[1..], x, y);
      var (a, rest) := Cut(s[1..], x, y).value;
      assert s == [s[0]] + s[1..] && s[1..][|a|] == s[1 + |a|];
      assert [s[0]] + (a + ([s[1 + |a|]] + rest)) == ([s[0]] + a) + ([s[1 + |a|]] + rest);
    }
  }

  lemma {:induction false} CutLastRejoins(s: string, x: char, y: char)
    requires CutLast(s, x, y).Some?
    ensures var (a, rest) := CutLast(s, x, y).value; s == a + rest && rest != "" && (rest[0] == x || rest[0] == y)
  {
    var n := |s| - 1;
    assert s == s[..n] + s[n..];
    if s[n] != x && s[n] != y {
      CutLastRejoins(s[..n], x, y);
      var (a, rest) := CutLast(s[..n], x, y).value;
      assert a + (rest + s[n..]) == (a + rest) + s[n..];
    }
  }

  lemma ThreePartsRejoin(s: string, sep: char)
    requires |Split(s, sep)| == 3
    ensures var p := Split(s, sep); s == p[0] + ([sep] + (p[1] + ([sep] + p[2])))
  {
    var p := Split(s, sep);
    JoinSplit(s, sep);
    assert p[1..][1..] == [p[2]] && Join([p[2]], [sep]) == p[2];
    assert Join(p[1..], [sep]) == p[1] + [sep] + p[2];
    assert s == p[0] + [sep] + (p[1] + [sep] + p[2]);
  }

  /** A number is written with its digits. */
  lemma {:induction false} NumberIsFixed(s: string)
    requires AllDigits(s)
    ensures Number(s) < Pow10(|s|) && Fixed(Number(s), |s|) == s
  {
    if s != "" {
      var n := |s| - 1;
      NumberIsFixed(s[..n]);
      var digit := s[n] as int - '0' as int;
      assert Number(s) / 10 == Number(s[..n]) && Number(s) % 10 == digit;
      assert DigitChar(digit) == s[n] && s == s[..n] + [s[n]];
    }
  }

  lemma NumberIsPad(s: string, w: nat)
    requires IsNumber(s, w) && w > 0
    ensures Number(s) < Pow10(w) && Pad(Number(s), w) == s
  {
    NumberIsFixed(s);
    DecimalIsFixed(Number(s), w);
  }

  lemma AcceptedDate(s: string) returns (d: Date)
    requires CheckDate(s) == None
    ensures ValidDate(d) && 1 <= d.year < 10000
    ensures s == Pad(d.year, 4) + (['-'] + (Pad(d.month, 2) + (['-'] + Pad(d.day, 2))))
  {
    Widths();
    var p := Split(s, '-');
    ThreePartsRejoin(s, '-');
    NumberIsPad(p[0], 4);
    NumberIsPad(p[1], 2);
    NumberIsPad(p[2], 2);
    d := Date(Number(p[0]), Number(p[1]), Number(p[2]));
  }

  lemma AcceptedOffset(s: string) returns (z: Zone)
    requires CheckOffset(s) == None && s != "Z" && (s[0] == '+' || s[0] == '-')
    ensures ValidZone(z) && ZoneText(z) == s
  {
    var h, m := Number(s[1..3]), Number(s[4..6]);
    NumberIsPad(s[1..3], 2);
    NumberIsPad(s[4..6], 2);
    z := if s[0] == '+' then Plus(h, m) else Minus(h, m);
    assert s == [s[0]] + (s[1..3] + ([s[3]] + s[4..6]));
  }

  /** The clock and the fraction. */
  lemma AcceptedTime(s: string) returns (h: nat, m: nat, sec: nat, fraction: nat, digits: nat)
    requires CheckTime(s) == None
    ensures h < 24 && m < 60 && sec <= 60 && fraction < Pow10(digits)
    ensures s == (Pad(h, 2) + ([':'] + (Pad(m, 2) + ([':'] + Pad(sec, 2))))) + FractionText(fraction, digits)
  {
    var cut := Cut(s, '.', '.');
    var hms := if cut.Some? then cut.value.0 else s;
    h, m, sec := AcceptedClock(hms);
    fraction, digits := 0, 0;
    if cut.Some? {
      CutRejoins(s, '.', '.');
      NumberIsFixed(cut.value.1);
      fraction, digits := Number(cut.value.1), |cut.value.1|;
    } else {
      assert s + "" == s;
    }
  }

  lemma AcceptedClock(hms: string) returns (h: nat, m: nat, sec: nat)
    requires var p := Split(hms, ':');
             && |p| == 3 && IsNumber(p[0], 2) && IsNumber(p[1], 2) && IsNumber(p[2], 2)
             && Number(p[0]) < 24 && Number(p[1]) < 60 && Number(p[2]) <= 60
    ensures h < 24 && m < 60 && sec <= 60
    ensures hms == Pad(h, 2) + ([':'] + (Pad(m, 2) + ([':'] + Pad(sec, 2))))
  {
    var p := Split(hms, ':');
    ThreePartsRejoin(hms, ':');
    NumberIsPad(p[0], 2);
    NumberIsPad(p[1], 2);
    NumberIsPad(p[2], 2);
    h, m, sec := Number(p[0]), Number(p[1]), Number(p[2]);
  }

  /** What follows the separator: an accepted time and a zone. */
  lemma AcceptedRest(rest: string) returns (time: string, z: Zone)
    requires var zoned := if rest != "" && (rest[|rest| - 1] == 'Z' || rest[|rest| - 1] == 'z')
                          then Some((rest[..|rest| - 1], "Z")) else CutLast(rest, '+', '-');
             zoned.Some? && CheckOffset(zoned.value.1) == None && CheckTime(zoned.value.0) == None
    ensures ValidZone(z) && CheckTime(time) == None && rest == time + ZoneText(z)
  {
    var n := |rest| - 1;
    if rest != "" && (rest[n] == 'Z' || rest[n] == 'z') {
      time, z := rest[..n], Utc(rest[n]);
    } else {
      CutLastRejoins(rest, '+', '-');
      time := CutLast(rest, '+', '-').value.0;
      z := AcceptedOffset(CutLast(rest, '+', '-').value.1);
    }
  }

  /** Every text that passes validation is a date and time written in a valid shape. */
  lemma AcceptedIsWritten(t: string) returns (w: Written, s: Shape)
    requires ValidateRfc3339(t) == None
    ensures Good(w, s) && ValidShape(s) && t == Written3339(w, s)
  {
    var (date, rest) := Cut(t, 'T', 't').value;
    CutRejoins(t, 'T', 't');
    var d := AcceptedDate(date);
    var time, z := AcceptedRest(rest);
    var h, m, sec, fraction, digits := AcceptedTime(time);
    w, s := Written(Parts(d, h, m, sec), fraction), Shape(t[|date|], digits, z);
    DateTextIs(w, s);
    TimeTextIs(w, s);
  }

  /** The validator accepts exactly the dates and times written in a valid shape. */
  lemma AcceptedIff(t: string)
    ensures ValidateRfc3339(t) == None <==> exists w, s :: Good(w, s) && ValidShape(s) && Written3339(w, s) == t
  {
    if ValidateRfc3339(t) == None {
      var w, s := AcceptedIsWritten(t);
    } else if w, s :| Good(w, s) && ValidShape(s) && Written3339(w, s) == t {
      WrittenIsValid(w, s);
    }
  }
}
