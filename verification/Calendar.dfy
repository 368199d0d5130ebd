/**
 * The closed-form day-to-date conversion against the plain calendar: month lengths, leap years, and
 * "the next day is the next day".
 */
module Calendar {

  datatype Date = Date(year: int, month: int, day: int)

  predicate IsLeapYear(year: int) {
    (year % 4 == 0 && year % 100 != 0) || year % 400 == 0
  }

  function DaysInMonth(year: int, month: int): int {
    match month
    case 1 | 3 | 5 | 7 | 8 | 10 | 12 => 31
    case 4 | 6 | 9 | 11 => 30
    case 2 => if IsLeapYear(year) then 29 else 28
    case _ => 0
  }

  predicate ValidDate(d: Date) {
    1 <= d.month <= 12 && 1 <= d.day <= DaysInMonth(d.year, d.month)
  }

  /** The calendar's own successor. */
  function NextDay(d: Date): Date {
    if d.day < DaysInMonth(d.year, d.month) then Date(d.year, d.month, d.day + 1)
    else if d.month < 12 then Date(d.year, d.month + 1, 1)
    else Date(d.year + 1, 1, 1)
  }

  /** Division as the source's integer types do it: toward zero. */
  function TruncDiv(a: int, b: int): int
    requires b > 0
  {
    if a >= 0 then a / b else -((-a) / b)
  }

  const DAYS_PER_ERA: int := 146097

  function Era(z: int): int {
    TruncDiv(if z >= 0 then z else z - 146096, DAYS_PER_ERA)
  }

  function YearOfEra(doe: int): int {
    (doe - doe / 1460 + doe / 36524 - doe / 146096) / 365
  }

  function DayOfYear(doe: int, yoe: int): int {
    doe - (365 * yoe + yoe / 4 - yoe / 100)
  }

  /** Month and day from the day of a year that starts on 1 March. */
  function MonthIndex(doy: int): int {
    (5 * doy + 2) / 153
  }

  function DayOfMonth(doy: int): int {
    doy - (153 * MonthIndex(doy) + 2) / 5 + 1
  }

  function MonthOf(mp: int): int {
    if mp < 10 then mp + 3 else mp - 9
  }

  /** Day `doy` of the year that starts on 1 March of `y`. */
  function FromMarch(y: int, doy: int): Date {
    var m := MonthOf(MonthIndex(doy));
    Date(y + (if m <= 2 then 1 else 0), m, DayOfMonth(doy))
  }

  /** The March-based year and day of year of a day since 1970-01-01. */
  function MarchYearAndDay(days: int): (int, int) {
    var z := days + 719468;
    var era := Era(z);
    var doe := z - era * DAYS_PER_ERA;
    var yoe := YearOfEra(doe);
    (yoe + era * 400, DayOfYear(doe, yoe))
  }

  /** Days since 1970-01-01 to a date, before the year is narrowed to 32 bits. */
  function Civil(days: int): Date {
    var (y, doy) := MarchYearAndDay(days);
    FromMarch(y, doy)
  }

  lemma EraIsFloor(z: int)
    ensures 0 <= z - Era(z) * DAYS_PER_ERA < DAYS_PER_ERA
    ensures Era(z) == z / DAYS_PER_ERA
  {}

  /** First day of year `y` of an era; years start on 1 March. */
  function YearStart(y: int): int {
    365 * y + y / 4 - y / 100 + y / 400
  }

  /** The closed form on century `c`, four-year cycle `q`, year `i` and day `d` of that year. */
  lemma YearOfEraIs(c: int, q: int, i: int, d: int)
    requires 0 <= c < 4 && 0 <= q < 25 && 0 <= i < 4
    requires 0 <= d < 365 || (d == 365 && i == 3 && (q < 24 || c == 3))
    ensures YearOfEra(36524 * c + 1461 * q + 365 * i + d) == 100 * c + 4 * q + i
  {
    var e := 365 * i + d;
    var doe := 36524 * c + 1461 * q + e;
    var slip := if 24 * c + q + e >= 1460 then 1 else 0;
    assert doe / 1460 == 25 * c + q + slip;
    var last := if doe == 146096 then 1 else 0;
    assert doe / 36524 == c + last;
    assert doe / 146096 == last;
    var x := doe - doe / 1460 + doe / 36524 - doe / 146096;
    assert x == 365 * (100 * c + 4 * q) + e - slip;
    assert x / 365 == 100 * c + 4 * q + i;
  }

  lemma YearStartIs(c: int, q: int, i: int)
    requires 0 <= c < 4 && 0 <= q < 25 && 0 <= i < 4
    ensures YearStart(100 * c + 4 * q + i) == 36524 * c + 1461 * q + 365 * i
    ensures YearStart(100 * c + 4 * q + i + 1)
         == 36524 * c + 1461 * q + 365 * (i + 1) + if i == 3 && (q < 24 || c == 3) then 1 else 0
  {
    var y := 100 * c + 4 * q + i;
    assert y / 4 == 25 * c + q;
    assert y / 100 == c;
    assert y / 400 == 0;
    var last := if i == 3 then 1 else 0;
    var hundred := if i == 3 && q == 24 then 1 else 0;
    var end := if i == 3 && q == 24 && c == 3 then 1 else 0;
    assert (y + 1) / 4 == 25 * c + q + last;
    assert (y + 1) / 100 == c + hundred;
    assert (y + 1) / 400 == end;
  }

  /** The closed form finds the year of the era that contains the day. */
  lemma YearOfEraFits(doe: int)
    requires 0 <= doe < DAYS_PER_ERA
    ensures 0 <= YearOfEra(doe) < 400
    ensures YearStart(YearOfEra(doe)) <= doe < YearStart(YearOfEra(doe) + 1)
  {
    var c := if doe == 146096 then 3 else doe / 36524;
    var inCentury := doe - 36524 * c;
    var q := inCentury / 1461;
    var e := inCentury - 1461 * q;
    var i := if e == 1460 then 3 else e / 365;
    YearOfEraIs(c, q, i, e - 365 * i);
    YearStartIs(c, q, i);
  }

  function MarchYearLength(y: int): int {
    if IsLeapYear(y + 1) then 366 else 365
  }

  function MonthStart(mp: int): int {
    (153 * mp + 2) / 5
  }

  lemma MonthIndexFits(doy: int)
    requires 0 <= doy <= 365
    ensures 0 <= MonthIndex(doy) <= 11
    ensures MonthStart(MonthIndex(doy)) <= doy < MonthStart(MonthIndex(doy) + 1)
  {}

  lemma MonthIndexIs(mp: int, doy: int)
    requires 0 <= mp <= 11 && MonthStart(mp) <= doy < MonthStart(mp + 1)
    ensures MonthIndex(doy) == mp
  {}

  lemma MonthLengthIs(y: int, mp: int)
    requires 0 <= mp <= 11
    ensures var m := MonthOf(mp);
            if mp == 11 then MonthStart(mp) + DaysInMonth(y, m) == 337 + (if IsLeapYear(y) then 29 else 28)
            else MonthStart(mp) + DaysInMonth(y, m) == MonthStart(mp + 1)
  {}

  lemma MarchDatesAreValid(y: int, doy: int)
    requires 0 <= doy < MarchYearLength(y)
    ensures ValidDate(FromMarch(y, doy))
  {
    MonthIndexFits(doy);
    MonthLengthIs(FromMarch(y, doy).year, MonthIndex(doy));
  }

  lemma NextInMarchYear(y: int, doy: int)
    requires 0 <= doy < MarchYearLength(y)
    ensures NextDay(FromMarch(y, doy))
         == if doy + 1 < MarchYearLength(y) then FromMarch(y, doy + 1) else FromMarch(y + 1, 0)
  {
    MonthIndexFits(doy);
    var mp := MonthIndex(doy);
    MonthLengthIs(FromMarch(y, doy).year, mp);
    if doy + 1 < MarchYearLength(y) {
      if doy + 1 < MonthStart(mp + 1) {
        MonthIndexIs(mp, doy + 1);
      } else {
        MonthIndexIs(mp + 1, doy + 1);
      }
    } else {
      MonthIndexIs(0, 0);
    }
  }

  lemma Mod4(k: int, y: int)
    ensures (4 * k + y) % 4 == y % 4
  {}

  lemma Mod100(k: int, y: int)
    ensures (100 * k + y) % 100 == y % 100
  {}

  lemma Mod400(k: int, y: int)
    ensures (400 * k + y) % 400 == y % 400
  {}

  lemma LeapYearsRepeat(era: int, y: int)
    ensures IsLeapYear(400 * era + y) <==> IsLeapYear(y)
  {
    Mod4(100 * era, y);
    Mod100(4 * era, y);
    Mod400(era, y);
  }

  lemma YearLengthIs(era: int, yoe: int)
    requires 0 <= yoe < 400
    ensures YearStart(yoe + 1) - YearStart(yoe) == MarchYearLength(400 * era + yoe)
  {
    LeapYearsRepeat(era, yoe + 1);
    assert (yoe + 1) / 4 - yoe / 4 == if (yoe + 1) % 4 == 0 then 1 else 0;
    assert (yoe + 1) / 100 - yoe / 100 == if (yoe + 1) % 100 == 0 then 1 else 0;
    assert (yoe + 1) / 400 - yoe / 400 == if (yoe + 1) % 400 == 0 then 1 else 0;
  }

  /** A day inside year `yoe` of an era is recognised as such. */
  lemma YearOfEraRecognises(doe: int, yoe: int)
    requires 0 <= yoe < 400 && YearStart(yoe) <= doe < YearStart(yoe + 1)
    ensures 0 <= doe < DAYS_PER_ERA && YearOfEra(doe) == yoe
  {
    var c, q, i := CenturyParts(yoe);
    YearStartIs(c, q, i);
    YearOfEraIs(c, q, i, doe - YearStart(yoe));
  }

  /** Century, group of four years and year of the group. */
  lemma CenturyParts(yoe: int) returns (c: int, q: int, i: int)
    requires 0 <= yoe < 400
    ensures 0 <= c < 4 && 0 <= q < 25 && 0 <= i < 4 && yoe == 100 * c + 4 * q + i
  {
    c := yoe / 100;
    var r := yoe - 100 * c;
    q := r / 4;
    i := r - 4 * q;
  }

  lemma EraIs(z: int, era: int, doe: int)
    requires z == DAYS_PER_ERA * era + doe && 0 <= doe < DAYS_PER_ERA
    ensures Era(z) == era
  {
    EraIsFloor(z);
  }

  lemma CivilFrom(days: int, era: int, doe: int, yoe: int)
    requires Era(days + 719468) == era && doe == days + 719468 - era * DAYS_PER_ERA && yoe == YearOfEra(doe)
    ensures Civil(days) == FromMarch(400 * era + yoe, DayOfYear(doe, yoe))
  {
    assert MarchYearAndDay(days) == (400 * era + yoe, DayOfYear(doe, yoe));
  }

  lemma YearStartOf(yoe: int)
    requires 0 <= yoe < 400
    ensures YearStart(yoe) == 365 * yoe + yoe / 4 - yoe / 100
  {}

  /** Every day has a March-based position: era, year of the era, day of that year. */
  lemma MarchPosition(days: int) returns (era: int, yoe: int, doy: int)
    ensures 0 <= yoe < 400 && 0 <= doy < MarchYearLength(400 * era + yoe)
    ensures days + 719468 == DAYS_PER_ERA * era + YearStart(yoe) + doy
    ensures Civil(days) == FromMarch(400 * era + yoe, doy)
  {
    var z := days + 719468;
    EraIsFloor(z);
    era := Era(z);
    var doe := z - era * DAYS_PER_ERA;
    YearOfEraFits(doe);
    yoe := YearOfEra(doe);
    YearStartOf(yoe);
    doy := DayOfYear(doe, yoe);
    YearLengthIs(era, yoe);
    CivilFrom(days, era, doe, yoe);
  }

  /** The position determines the conversion. */
  lemma CivilAt(days: int, era: int, yoe: int, doy: int)
    requires 0 <= yoe < 400 && 0 <= doy < MarchYearLength(400 * era + yoe)
    requires days + 719468 == DAYS_PER_ERA * era + YearStart(yoe) + doy
    ensures Civil(days) == FromMarch(400 * era + yoe, doy)
  {
    var doe := YearStart(yoe) + doy;
    YearLengthIs(era, yoe);
    YearOfEraRecognises(doe, yoe);
    EraIs(days + 719468, era, doe);
    YearStartOf(yoe);
    CivilFrom(days, era, doe, yoe);
  }

  /** Day 0 is 1970-01-01. */
  lemma EpochIsNewYear1970()
    ensures Civil(0) == Date(1970, 1, 1)
  {}

  lemma NextPosition(n: int, era: int, yoe: int, doy: int)
    requires 0 <= yoe < 400 && 0 <= doy < MarchYearLength(400 * era + yoe)
    requires n + 719468 == DAYS_PER_ERA * era + YearStart(yoe) + doy
    ensures var y := 400 * era + yoe;
            Civil(n + 1) == if doy + 1 < MarchYearLength(y) then FromMarch(y, doy + 1) else FromMarch(y + 1, 0)
  {
    if doy + 1 < MarchYearLength(400 * era + yoe) {
      SameYearPosition(n, era, yoe, doy);
    } else if yoe < 399 {
      NextYearPosition(n, era, yoe, doy);
    } else {
      NextEraPosition(n, era, doy);
    }
  }

  lemma SameYearPosition(n: int, era: int, yoe: int, doy: int)
    requires 0 <= yoe < 400 && 0 <= doy && doy + 1 < MarchYearLength(400 * era + yoe)
    requires n + 719468 == DAYS_PER_ERA * era + YearStart(yoe) + doy
    ensures Civil(n + 1) == FromMarch(400 * era + yoe, doy + 1)
  {
    CivilAt(n + 1, era, yoe, doy + 1);
  }

  lemma NextYearPosition(n: int, era: int, yoe: int, doy: int)
    requires 0 <= yoe < 399 && doy + 1 == MarchYearLength(400 * era + yoe)
    requires n + 719468 == DAYS_PER_ERA * era + YearStart(yoe) + doy
    ensures Civil(n + 1) == FromMarch(400 * era + yoe + 1, 0)
  {
    YearLengthIs(era, yoe);
    CivilAt(n + 1, era, yoe + 1, 0);
  }

  lemma NextEraPosition(n: int, era: int, doy: int)
    requires doy + 1 == MarchYearLength(400 * era + 399)
    requires n + 719468 == DAYS_PER_ERA * era + YearStart(399) + doy
    ensures Civil(n + 1) == FromMarch(400 * era + 400, 0)
  {
    YearLengthIs(era, 399);
    assert YearStart(400) == DAYS_PER_ERA;
    assert YearStart(0) == 0;
    CivilAt(n + 1, era + 1, 0, 0);
  }

  /** The date of day `n + 1` is the calendar successor of the date of day `n`, for every day there is. */
  lemma CivilFollowsTheCalendar(n: int)
    ensures ValidDate(Civil(n)) && Civil(n + 1) == NextDay(Civil(n))
  {
    var era, yoe, doy := MarchPosition(n);
    FollowsAt(n, era, yoe, doy, Civil(n), Civil(n + 1));
  }

  lemma FollowsAt(n: int, era: int, yoe: int, doy: int, today: Date, tomorrow: Date)
    requires 0 <= yoe < 400 && 0 <= doy < MarchYearLength(400 * era + yoe)
    requires n + 719468 == DAYS_PER_ERA * era + YearStart(yoe) + doy
    requires today == FromMarch(400 * era + yoe, doy) && tomorrow == Civil(n + 1)
    ensures ValidDate(today) && tomorrow == NextDay(today)
  {
    NextPosition(n, era, yoe, doy);
    MarchStep(400 * era + yoe, doy, today, tomorrow);
  }

  lemma MarchStep(y: int, doy: int, today: Date, tomorrow: Date)
    requires 0 <= doy < MarchYearLength(y) && today == FromMarch(y, doy)
    requires tomorrow == if doy + 1 < MarchYearLength(y) then FromMarch(y, doy + 1) else FromMarch(y + 1, 0)
    ensures ValidDate(today) && tomorrow == NextDay(today)
  {
    MarchDatesAreValid(y, doy);
    NextInMarchYear(y, doy);
  }

  // ---------------------------------------------------------------- bijection

  predicate Before(a: Date, b: Date) {
    a.year < b.year || (a.year == b.year && (a.month < b.month || (a.month == b.month && a.day < b.day)))
  }

  ghost predicate Follows(f: int -> Date, k: int) {
    ValidDate(f(k)) && f(k + 1) == NextDay(f(k))
  }

  /** Whatever steps through the calendar day by day never returns to an earlier date. */
  lemma {:induction false} FollowingIsIncreasing(f: int -> Date, n: int, m: int)
    requires n < m && forall k :: Follows(f, k)
    ensures Before(f(n), f(m))
    decreases m - n
  {
    assert Follows(f, m - 1);
    if n < m - 1 {
      FollowingIsIncreasing(f, n, m - 1);
    }
  }

  /** Later days have later dates, so no date comes twice. */
  lemma CivilIsIncreasing(n: int, m: int)
    requires n < m
    ensures Before(Civil(n), Civil(m))
  {
    forall k ensures Follows(Civil, k) {
      CivilFollowsTheCalendar(k);
    }
    FollowingIsIncreasing(Civil, n, m);
  }

  /** The day number of a date, counted from the March-based year that contains it. */
  function DayNumber(d: Date): int {
    var y := if d.month <= 2 then d.year - 1 else d.year;
    var mp := if d.month <= 2 then d.month + 9 else d.month - 3;
    var era := y / 400;
    DAYS_PER_ERA * era + YearStart(y % 400) + MonthStart(mp) + d.day - 1 - 719468
  }

  /** Every valid date is reached. */
  lemma CivilReachesEveryDate(d: Date)
    requires ValidDate(d)
    ensures Civil(DayNumber(d)) == d
  {
    var y := if d.month <= 2 then d.year - 1 else d.year;
    var mp := if d.month <= 2 then d.month + 9 else d.month - 3;
    assert y == 400 * (y / 400) + y % 400;
    DateAt(d, y, mp, y / 400, y % 400, DayNumber(d));
  }

  lemma DateAt(d: Date, y: int, mp: int, era: int, yoe: int, days: int)
    requires ValidDate(d) && y == 400 * era + yoe && 0 <= yoe < 400
    requires y == if d.month <= 2 then d.year - 1 else d.year
    requires mp == if d.month <= 2 then d.month + 9 else d.month - 3
    requires days + 719468 == DAYS_PER_ERA * era + YearStart(yoe) + MonthStart(mp) + d.day - 1
    ensures Civil(days) == d
  {
    var doy := MonthStart(mp) + d.day - 1;
    DateInMarchYear(d, y, mp);
    CivilAtIs(days, era, yoe, doy, d);
  }

  lemma CivilAtIs(days: int, era: int, yoe: int, doy: int, d: Date)
    requires 0 <= yoe < 400 && 0 <= doy < MarchYearLength(400 * era + yoe)
    requires days + 719468 == DAYS_PER_ERA * era + YearStart(yoe) + doy && FromMarch(400 * era + yoe, doy) == d
    ensures Civil(days) == d
  {
    CivilAt(days, era, yoe, doy);
  }

  lemma DateInMarchYear(d: Date, y: int, mp: int)
    requires ValidDate(d)
    requires y == if d.month <= 2 then d.year - 1 else d.year
    requires mp == if d.month <= 2 then d.month + 9 else d.month - 3
    ensures 0 <= MonthStart(mp) + d.day - 1 < MarchYearLength(y)
    ensures FromMarch(y, MonthStart(mp) + d.day - 1) == d
  {
    MonthLengthIs(d.year, mp);
    MonthIndexIs(mp, MonthStart(mp) + d.day - 1);
  }

  /** Together: the conversion is a bijection between day numbers and valid dates. */
  lemma CivilIsABijection(n: int, d: Date)
    requires ValidDate(d)
    ensures ValidDate(Civil(n)) && (Civil(n) == d <==> n == DayNumber(d))
  {
    CivilFollowsTheCalendar(n);
    CivilReachesEveryDate(d);
    if n < DayNumber(d) {
      CivilIsIncreasing(n, DayNumber(d));
    } else if DayNumber(d) < n {
      CivilIsIncreasing(DayNumber(d), n);
    }
  }

  // ---------------------------------------------------------------- the narrowed year

  const I32_MIN: int := -0x8000_0000
  const I32_MAX: int := 0x7FFF_FFFF

  /** A 64-bit value cast to 32 bits keeps its low bits. */
  function AsI32(y: int): int {
    (y - I32_MIN) % 0x1_0000_0000 + I32_MIN
  }

  /**
   * The conversion as written: the year is cast to 32 bits, and the January correction is a 32-bit addition. The
   * addition wraps here, as it does in release builds; `CorrectionOverflows` is where debug builds abort instead.
   */
  function DaysToYmd(days: int): Date {
    var (y, doy) := MarchYearAndDay(days);
    NarrowedDate(y, doy)
  }

  function NarrowedDate(y: int, doy: int): Date {
    var d := FromMarch(AsI32(y), doy);
    d.(year := AsI32(d.year))
  }

  predicate CorrectionOverflows(days: int) {
    var (y, doy) := MarchYearAndDay(days);
    FromMarch(AsI32(y), doy).year > I32_MAX
  }

  /**
   * The wrapping conversion is the calendar's exactly if the year it returns fits in 32 bits. In every build it is
   * exactly if the year it starts from, which begins in March, fits as well: else the addition overflows.
   */
  lemma DaysToYmdIsCivilIff(days: int)
    ensures var c := Civil(days);
            var marchYear := if c.month <= 2 then c.year - 1 else c.year;
            && (DaysToYmd(days) == c <==> I32_MIN <= c.year <= I32_MAX)
            && (DaysToYmd(days) == c && !CorrectionOverflows(days) <==> I32_MIN <= marchYear && c.year <= I32_MAX)
  {
    var (y, doy) := MarchYearAndDay(days);
    NarrowedDateIsSameIff(y, doy);
  }

  lemma NarrowedDateIsSameIff(y: int, doy: int)
    ensures var c := FromMarch(y, doy);
            && (NarrowedDate(y, doy) == c <==> I32_MIN <= c.year <= I32_MAX)
            && (NarrowedDate(y, doy) == c && FromMarch(AsI32(y), doy).year <= I32_MAX
                <==> I32_MIN <= y && c.year <= I32_MAX)
  {
    NarrowingTwice(y);
    NarrowingTwice(y + 1);
  }

  /** Low bits do not care when they are taken. */
  lemma NarrowingTwice(y: int)
    ensures AsI32(AsI32(y)) == AsI32(y) && AsI32(AsI32(y - 1) + 1) == AsI32(y)
    ensures I32_MIN <= AsI32(y) <= I32_MAX && (AsI32(y) == y <==> I32_MIN <= y <= I32_MAX)
  {}

  /**
   * January and February after the last March that fits: the addition overflows, and a release build goes 2^32
   * years back.
   */
  lemma JanuaryOverflows(d: Date)
    requires d.year == I32_MAX + 1 && d.month <= 2 && ValidDate(d)
    ensures CorrectionOverflows(DayNumber(d)) && DaysToYmd(DayNumber(d)) == d.(year := I32_MIN)
  {
    CivilReachesEveryDate(d);
    OverflowAt(DayNumber(d), d);
  }

  lemma OverflowAt(days: int, d: Date)
    requires Civil(days) == d && d.year == I32_MAX + 1 && d.month <= 2
    ensures CorrectionOverflows(days) && DaysToYmd(days) == d.(year := I32_MIN)
  {
    var (y, doy) := MarchYearAndDay(days);
    OverflowsAfter(y, doy, d);
  }

  lemma OverflowsAfter(y: int, doy: int, d: Date)
    requires FromMarch(y, doy) == d && d.year == I32_MAX + 1 && d.month <= 2
    ensures y == I32_MAX && FromMarch(AsI32(y), doy) == d && NarrowedDate(y, doy) == d.(year := I32_MIN)
  {}

  /** A count of seconds in 64 bits reaches that day. */
  lemma OverflowIsReachable()
    ensures 0 <= DayNumber(Date(I32_MAX + 1, 1, 1))
            && DayNumber(Date(I32_MAX + 1, 1, 1)) * 86400 < 0x1_0000_0000_0000_0000
  {
    assert (I32_MAX + 1 - 1) / 400 == 5_368_709 && I32_MAX % 400 == 47;
  }

  lemma CivilYearsGrow(n: int, m: int)
    requires n <= m
    ensures Civil(n).year <= Civil(m).year
  {
    if n < m {
      CivilIsIncreasing(n, m);
    }
  }

  lemma NarrowingIsHarmless(days: int)
    requires 1 <= Civil(days).year <= I32_MAX
    ensures DaysToYmd(days) == Civil(days)
  {
    DaysToYmdIsCivilIff(days);
  }
}
