/**
 Civil time: the division arithmetic that turns Unix seconds into a date and a time of day,
 against the Gregorian calendar stated by month lengths and the leap rule.
 */
module Calendar {
  import opened Records

  datatype Date = Date(year: int, month: int, day: int)

  datatype Civil = Civil(date: Date, hour: int, minute: int, second: int)

  // ---- The Gregorian calendar ----

  predicate IsLeap(y: int) {
    y % 4 == 0 && (y % 100 != 0 || y % 400 == 0)
  }

  function MonthLength(y: int, m: int): int {
    if m == 2 then (if IsLeap(y) then 29 else 28)
    else if m in {4, 6, 9, 11} then 30
    else 31
  }

  function YearLength(y: int): int {
    if IsLeap(y) then 366 else 365
  }

  predicate ValidDate(d: Date) {
    1 <= d.month <= 12 && 1 <= d.day <= MonthLength(d.year, d.month)
  }

  predicate ValidCivil(c: Civil) {
    ValidDate(c.date) && 0 <= c.hour < 24 && 0 <= c.minute < 60 && 0 <= c.second < 60
  }

  function NextDay(d: Date): Date {
    if d.day < MonthLength(d.year, d.month) then d.(day := d.day + 1)
    else if d.month < 12 then Date(d.year, d.month + 1, 1)
    else Date(d.year + 1, 1, 1)
  }

  predicate DateBefore(a: Date, b: Date) {
    a.year < b.year || (a.year == b.year && (a.month < b.month || (a.month == b.month && a.day < b.day)))
  }

  predicate CivilBefore(a: Civil, b: Civil) {
    DateBefore(a.date, b.date) ||
    (a.date == b.date &&
     (a.hour < b.hour || (a.hour == b.hour && (a.minute < b.minute || (a.minute == b.minute && a.second < b.second)))))
  }

  // ---- The source's arithmetic ----

  /** Division that truncates toward zero, by a positive divisor. */
  function TruncDiv(a: int, b: int): int
    requires b > 0
  {
    if a >= 0 then a / b else -((-a) / b)
  }

  function Era(z: int): int {
    TruncDiv(if z >= 0 then z else z - 146_096, 146_097)
  }

  function YearOfEra(doe: int): int {
    (doe - doe / 1_460 + doe / 36_524 - doe / 146_096) / 365
  }

  function DayOfYear(doe: int): int {
    var yoe := YearOfEra(doe);
    doe - (365 * yoe + yoe / 4 - yoe / 100)
  }

  function CivilFromDays(days: int): Date {
    var z := days + 719_468;
    var era := Era(z);
    var doe := z - era * 146_097;
    var y := YearOfEra(doe) + era * 400;
    var doy := DayOfYear(doe);
    var mp := (5 * doy + 2) / 153;
    var d := doy - (153 * mp + 2) / 5 + 1;
    var m := if mp < 10 then mp + 3 else mp - 9;
    Date(if m <= 2 then y + 1 else y, m, d)
  }

  function UnixToCivil(secs: int): Civil {
    var rem := secs % 86_400;
    Civil(CivilFromDays(secs / 86_400), rem / 3_600, (rem % 3_600) / 60, rem % 60)
  }

  // ---- Counting days, the inverse direction ----

  /** Days before 1 January of year `y`, counted from 1 January of year 0. */
  function DaysBeforeYear(y: int): int {
    365 * y + (y + 3) / 4 - (y + 99) / 100 + (y + 399) / 400
  }

  function DaysBeforeMonth(y: int, m: int): int
    requires m >= 1
    decreases m
  {
    if m == 1 then 0 else DaysBeforeMonth(y, m - 1) + MonthLength(y, m - 1)
  }

  /** Days from 1 January 1970 to `d`. */
  function DayNumber(d: Date): int
    requires d.month >= 1
  {
    DaysBeforeYear(d.year) + DaysBeforeMonth(d.year, d.month) + d.day - 1 - 719_528
  }

  function CivilToUnix(c: Civil): int
    requires c.date.month >= 1
  {
    86_400 * DayNumber(c.date) + 3_600 * c.hour + 60 * c.minute + c.second
  }

  // ---- The day count follows the calendar ----

  lemma DivisionUnique(a: int, k: int, q: int, r: int)
    requires k > 0 && a == k * q + r && 0 <= r < k
    ensures a / k == q && a % k == r
  {
    assert a == k * (a / k) + a % k;
    var gap := q - a / k;
    assert k * gap == a % k - r;
    assert gap >= 1 ==> k * gap >= k;
    assert gap <= -1 ==> k * gap <= -k;
  }

  /** Counting multiples of `k` below `y` moves exactly at a multiple. */
  lemma MultiplesCounted(y: int, k: int)
    requires k > 1
    ensures (y + k) / k == (y + k - 1) / k + if y % k == 0 then 1 else 0
  {
    var q, r := y / k, y % k;
    assert y + k == k * (q + 1) + r;
    DivisionUnique(y + k, k, q + 1, r);
    if r == 0 {
      assert y + k - 1 == k * q + (k - 1);
      DivisionUnique(y + k - 1, k, q, k - 1);
    } else {
      DivisionUnique(y + k - 1, k, q + 1, r - 1);
    }
  }

  lemma YearsAreCounted(y: int)
    ensures DaysBeforeYear(y + 1) == DaysBeforeYear(y) + YearLength(y)
  {
    MultiplesCounted(y, 4);
    MultiplesCounted(y, 100);
    MultiplesCounted(y, 400);
    CenturiesNest(y);
  }

  lemma CenturiesNest(y: int)
    ensures y % 400 == 0 ==> y % 100 == 0
    ensures y % 100 == 0 ==> y % 4 == 0
  {
  }

  lemma MonthTable(y: int)
    ensures
      var f := if IsLeap(y) then 1 else 0;
      && DaysBeforeMonth(y, 1) == 0 && DaysBeforeMonth(y, 2) == 31 && DaysBeforeMonth(y, 3) == 59 + f
      && DaysBeforeMonth(y, 4) == 90 + f && DaysBeforeMonth(y, 5) == 120 + f && DaysBeforeMonth(y, 6) == 151 + f
      && DaysBeforeMonth(y, 7) == 181 + f && DaysBeforeMonth(y, 8) == 212 + f && DaysBeforeMonth(y, 9) == 243 + f
      && DaysBeforeMonth(y, 10) == 273 + f && DaysBeforeMonth(y, 11) == 304 + f && DaysBeforeMonth(y, 12) == 334 + f
      && DaysBeforeMonth(y, 13) == YearLength(y)
  {
    hide IsLeap;
    assert DaysBeforeMonth(y, 3) == 59 + if IsLeap(y) then 1 else 0;
    assert DaysBeforeMonth(y, 5) == DaysBeforeMonth(y, 3) + 61;
    assert DaysBeforeMonth(y, 7) == DaysBeforeMonth(y, 5) + 61;
    assert DaysBeforeMonth(y, 9) == DaysBeforeMonth(y, 7) + 62;
    assert DaysBeforeMonth(y, 11) == DaysBeforeMonth(y, 9) + 61;
    assert DaysBeforeMonth(y, 13) == DaysBeforeMonth(y, 11) + 61;
  }

  /** The day after a date has the next day number, and is a date. */
  lemma NextDayCounts(d: Date)
    requires ValidDate(d)
    ensures ValidDate(NextDay(d)) && DayNumber(NextDay(d)) == DayNumber(d) + 1
  {
    hide IsLeap, DaysBeforeYear;
    YearsAreCounted(d.year);
    MonthTable(d.year);
  }

  lemma {:induction false} YearsGrow(y: int, z: int)
    requires y < z
    ensures DaysBeforeYear(y) + YearLength(y) <= DaysBeforeYear(z)
    decreases z - y
  {
    hide DaysBeforeYear, IsLeap;
    YearsAreCounted(z - 1);
    if y < z - 1 {
      YearsGrow(y, z - 1);
    }
  }

  lemma {:induction false} MonthsGrow(y: int, m: int, n: int)
    requires 1 <= m < n
    ensures DaysBeforeMonth(y, m) + MonthLength(y, m) <= DaysBeforeMonth(y, n)
    decreases n
  {
    hide IsLeap;
    if m < n - 1 {
      MonthsGrow(y, m, n - 1);
    }
  }

  lemma DayInYear(d: Date)
    requires ValidDate(d)
    ensures DaysBeforeYear(d.year) <= DayNumber(d) + 719_528 < DaysBeforeYear(d.year) + YearLength(d.year)
  {
    hide IsLeap, DaysBeforeYear;
    MonthTable(d.year);
    MonthsGrow(d.year, d.month, 13);
    if d.month > 1 {
      MonthsGrow(d.year, 1, d.month);
    }
  }

  /** Day numbers order dates as the calendar does. */
  lemma DayNumberMonotone(a: Date, b: Date)
    requires ValidDate(a) && ValidDate(b) && DateBefore(a, b)
    ensures DayNumber(a) < DayNumber(b)
  {
    hide IsLeap, DaysBeforeYear;
    if a.year < b.year {
      DayInYear(a);
      DayInYear(b);
      YearsGrow(a.year, b.year);
    } else if a.month < b.month {
      MonthsGrow(a.year, a.month, b.month);
    }
  }

  lemma DayNumberInjective(a: Date, b: Date)
    requires ValidDate(a) && ValidDate(b) && DayNumber(a) == DayNumber(b)
    ensures a == b
  {
    hide DayNumber, ValidDate;
    if DateBefore(a, b) {
      DayNumberMonotone(a, b);
    } else if DateBefore(b, a) {
      DayNumberMonotone(b, a);
    }
  }

  // ---- The source's arithmetic counts days ----

  lemma EraIsFloor(z: int)
    ensures Era(z) == z / 146_097
    ensures 0 <= z - Era(z) * 146_097 < 146_097
  {
  }

  /** A day of an era as centuries, four-year cycles, years and days, with March as the first month. */
  ghost predicate Cycles(doe: int, c: int, q: int, r: int, t: int) {
    && doe == 36_524 * c + 1_461 * q + 365 * r + t
    && 0 <= c <= 3 && 0 <= q <= 24 && 0 <= r <= 3 && 0 <= t <= 365
    && (t == 365 ==> r == 3 && (q < 24 || c == 3))
  }

  lemma CyclesExist(doe: int) returns (c: int, q: int, r: int, t: int)
    requires 0 <= doe < 146_097
    ensures Cycles(doe, c, q, r, t)
  {
    c := if doe == 146_096 then 3 else doe / 36_524;
    var inCentury := doe - 36_524 * c;
    q := inCentury / 1_461;
    var inCycle := inCentury - 1_461 * q;
    r := if inCycle == 1_460 then 3 else inCycle / 365;
    t := inCycle - 365 * r;
  }

  lemma YearFromCycles(doe: int, c: int, q: int, r: int, t: int)
    requires Cycles(doe, c, q, r, t)
    ensures YearOfEra(doe) == 100 * c + 4 * q + r && DayOfYear(doe) == t
  {
    var inCycle := 365 * r + t;
    var carry := if 24 * c + q + inCycle >= 1_460 then 1 else 0;
    assert doe / 1_460 == 25 * c + q + carry;
    var full := if doe == 146_096 then 1 else 0;
    assert doe / 36_524 == c + full;
    assert doe / 146_096 == full;
    assert YearOfEra(doe) == 100 * c + 4 * q + r;
  }

  /** Day `t` of the year that starts on 1 March of year `y`. */
  function FromMarch(y: int, t: int): Date {
    var mp := (5 * t + 2) / 153;
    var m := if mp < 10 then mp + 3 else mp - 9;
    Date(if m <= 2 then y + 1 else y, m, t - (153 * mp + 2) / 5 + 1)
  }

  lemma MarchIsValid(y: int, t: int)
    requires 0 <= t < if IsLeap(y + 1) then 366 else 365
    ensures ValidDate(FromMarch(y, t))
  {
    hide IsLeap;
  }

  lemma MarchCounts(y: int, t: int)
    requires 0 <= t < if IsLeap(y + 1) then 366 else 365
    ensures ValidDate(FromMarch(y, t))
    ensures DayNumber(FromMarch(y, t)) == DaysBeforeYear(y + 1) - 306 + t - 719_528
  {
    hide IsLeap, DaysBeforeYear;
    MarchIsValid(y, t);
    MonthTable(y);
    MonthTable(y + 1);
    YearsAreCounted(y);
  }

  lemma CyclesCount(era: int, c: int, q: int, r: int)
    requires 0 <= c <= 3 && 0 <= q <= 24 && 0 <= r <= 3
    ensures
      var y := 400 * era + 100 * c + 4 * q + r;
      && DaysBeforeYear(y + 1) == 146_097 * era + 36_524 * c + 1_461 * q + 365 * r + 366
      && (IsLeap(y + 1) <==> r == 3 && (q < 24 || c == 3))
  {
    var y := 400 * era + 100 * c + 4 * q + r;
    DivisionUnique(y + 4, 4, 100 * era + 25 * c + q + 1, r);
    DivisionUnique(y + 100, 100, 4 * era + c + 1, 4 * q + r);
    DivisionUnique(y + 400, 400, era + 1, 100 * c + 4 * q + r);
    if r < 3 {
      DivisionUnique(y + 1, 4, 100 * era + 25 * c + q, r + 1);
    } else {
      DivisionUnique(y + 1, 4, 100 * era + 25 * c + q + 1, 0);
      if q < 24 {
        DivisionUnique(y + 1, 100, 4 * era + c, 4 * q + 4);
      } else {
        DivisionUnique(y + 1, 100, 4 * era + c + 1, 0);
        DivisionUnique(y + 1, 400, if c < 3 then era else era + 1, if c < 3 then 100 * c + 100 else 0);
      }
    }
  }

  /** Every day number becomes a real date, and counting back recovers the number. */
  lemma CivilCounts(days: int)
    ensures ValidDate(CivilFromDays(days)) && DayNumber(CivilFromDays(days)) == days
  {
    hide Era, CivilFromDays, FromMarch, DayNumber, IsLeap, DaysBeforeYear, ValidDate;
    var z := days + 719_468;
    var era := Era(z);
    EraIsFloor(z);
    var c, q, r, t := CyclesExist(z - era * 146_097);
    CivilFromCycles(days, era, c, q, r, t);
    CyclesCount(era, c, q, r);
    MarchCounts(400 * era + 100 * c + 4 * q + r, t);
  }

  lemma CivilFromCycles(days: int, era: int, c: int, q: int, r: int, t: int)
    requires era == Era(days + 719_468) && Cycles(days + 719_468 - era * 146_097, c, q, r, t)
    ensures CivilFromDays(days) == FromMarch(400 * era + 100 * c + 4 * q + r, t)
  {
    hide Era, YearOfEra, DayOfYear, Cycles;
    YearFromCycles(days + 719_468 - era * 146_097, c, q, r, t);
  }

  /**
   On 64-bit seconds nothing overflows, the unsigned intermediates are not negative, and each has its
   documented range.
   */
  lemma ArithmeticFits(secs: I64)
    ensures
      var z := secs / 86_400 + 719_468;
      var era := Era(z);
      var doe := z - era * 146_097;
      && FitsI64(z - 146_096) && FitsI64(era * 146_097) && FitsI64(YearOfEra(doe) + era * 400 + 1)
      && 0 <= doe <= 146_096 && 0 <= YearOfEra(doe) <= 399 && 0 <= DayOfYear(doe) <= 365
      && 0 <= (5 * DayOfYear(doe) + 2) / 153 <= 11
  {
    assert FitsI64(secs);
    hide Era, YearOfEra, DayOfYear;
    var z := secs / 86_400 + 719_468;
    EraIsFloor(z);
    DocumentedRanges(z - Era(z) * 146_097);
  }

  lemma DocumentedRanges(doe: int)
    requires 0 <= doe < 146_097
    ensures 0 <= YearOfEra(doe) <= 399 && 0 <= DayOfYear(doe) <= 365 && 0 <= (5 * DayOfYear(doe) + 2) / 153 <= 11
  {
    hide YearOfEra, DayOfYear;
    var c, q, r, t := CyclesExist(doe);
    YearFromCycles(doe, c, q, r, t);
  }

  // ---- Main results on dates ----

  /** The conversion walks the Gregorian calendar one day at a time from 1 January 1970, in both directions. */
  lemma CivilWalksTheCalendar(days: int)
    ensures CivilFromDays(0) == Date(1970, 1, 1)
    ensures CivilFromDays(days + 1) == NextDay(CivilFromDays(days))
  {
    hide CivilFromDays, NextDay, DayNumber, ValidDate;
    CivilCounts(days);
    CivilCounts(days + 1);
    NextDayCounts(CivilFromDays(days));
    DayNumberInjective(CivilFromDays(days + 1), NextDay(CivilFromDays(days)));
    EpochDate();
  }

  lemma EpochDate()
    ensures CivilFromDays(0) == Date(1970, 1, 1)
  {
  }

  /** The conversion is onto: each date comes from its own day number and no other. */
  lemma CivilIsOnto(d: Date, days: int)
    requires ValidDate(d)
    ensures CivilFromDays(days) == d <==> days == DayNumber(d)
  {
    hide CivilFromDays, DayNumber;
    CivilCounts(DayNumber(d));
    DayNumberInjective(CivilFromDays(DayNumber(d)), d);
    CivilCounts(days);
  }

  lemma DatesFollowDays(a: int, b: int)
    ensures a < b <==> DateBefore(CivilFromDays(a), CivilFromDays(b))
  {
    hide CivilFromDays, DayNumber, ValidDate;
    CivilCounts(a);
    CivilCounts(b);
    var x, y := CivilFromDays(a), CivilFromDays(b);
    if DateBefore(x, y) {
      DayNumberMonotone(x, y);
    } else if DateBefore(y, x) {
      DayNumberMonotone(y, x);
    } else {
      assert x == y;
    }
  }

  // ---- Main results on instants ----

  /** A time of day and its seconds determine each other. */
  lemma ClockTime(rem: int)
    requires 0 <= rem < 86_400
    ensures
      var h, m, s := rem / 3_600, (rem % 3_600) / 60, rem % 60;
      0 <= h < 24 && 0 <= m < 60 && 0 <= s < 60 && 3_600 * h + 60 * m + s == rem
  {
  }

  lemma ClockUnique(h: int, m: int, s: int)
    requires 0 <= h < 24 && 0 <= m < 60 && 0 <= s < 60
    ensures
      var rem := 3_600 * h + 60 * m + s;
      0 <= rem < 86_400 && rem / 3_600 == h && (rem % 3_600) / 60 == m && rem % 60 == s
  {
  }

  /** Every instant becomes a real date and time, from which its seconds are recovered. */
  lemma UnixRoundTrip(secs: int)
    ensures ValidCivil(UnixToCivil(secs)) && CivilToUnix(UnixToCivil(secs)) == secs
  {
    hide CivilFromDays, DayNumber, ValidDate;
    CivilCounts(secs / 86_400);
    ClockTime(secs % 86_400);
  }

  /** Every real date and time comes from the seconds it counts to. */
  lemma CivilRoundTrip(c: Civil)
    requires ValidCivil(c)
    ensures UnixToCivil(CivilToUnix(c)) == c
  {
    hide CivilFromDays, DayNumber;
    ClockUnique(c.hour, c.minute, c.second);
    CivilIsOnto(c.date, DayNumber(c.date));
    var rem := 3_600 * c.hour + 60 * c.minute + c.second;
    assert CivilToUnix(c) == 86_400 * DayNumber(c.date) + rem;
    assert CivilToUnix(c) / 86_400 == DayNumber(c.date) && CivilToUnix(c) % 86_400 == rem;
  }

  /** Later instants have later dates and times, and only they do. */
  lemma UnixMonotone(a: int, b: int)
    ensures a < b <==> CivilBefore(UnixToCivil(a), UnixToCivil(b))
  {
    hide CivilFromDays;
    DatesFollowDays(a / 86_400, b / 86_400);
    DatesFollowDays(b / 86_400, a / 86_400);
    ClockOrder(a % 86_400, b % 86_400);
  }

  lemma ClockOrder(a: int, b: int)
    requires 0 <= a < 86_400 && 0 <= b < 86_400
    ensures
      var (h, m, s), (i, n, t) := (a / 3_600, (a % 3_600) / 60, a % 60), (b / 3_600, (b % 3_600) / 60, b % 60);
      a < b <==> h < i || (h == i && (m < n || (m == n && s < t)))
  {
    ClockTime(a);
    ClockTime(b);
  }
}
