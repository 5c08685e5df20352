/** The worker's timestamps: the civil date of a day number. */
module CivilDate {
  datatype Date = Date(year: int, month: int, day: int)

  // ----- The Gregorian calendar -----

  predicate Leap(year: int) {
    year % 4 == 0 && (year % 100 != 0 || year % 400 == 0)
  }

  function DaysInMonth(year: int, month: int): int {
    if month == 2 then (if Leap(year) then 29 else 28)
    else if month == 4 || month == 6 || month == 9 || month == 11 then 30
    else 31
  }

  predicate ValidDate(d: Date) {
    1 <= d.month <= 12 && 1 <= d.day <= DaysInMonth(d.year, d.month)
  }

  /** The day after. */
  function NextDay(d: Date): Date {
    if d.day < DaysInMonth(d.year, d.month) then d.(day := d.day + 1)
    else if d.month < 12 then Date(d.year, d.month + 1, 1)
    else Date(d.year + 1, 1, 1)
  }

  /** Days of the year before a month. */
  function DaysBefore(year: int, month: int): int
    requires 1 <= month <= 12
    decreases month
  {
    if month == 1 then 0 else DaysBefore(year, month - 1) + DaysInMonth(year, month - 1)
  }

  /** Days from year 0 to the start of a year: 365 each, and one more per leap year. */
  function DaysToYear(year: int): int {
    365 * year + (year + 3) / 4 - (year + 99) / 100 + (year + 399) / 400
  }

  /** Days since 1970-01-01. */
  function DayNumber(d: Date): int
    requires ValidDate(d)
  {
    DaysToYear(d.year) - DaysToYear(1970) + DaysBefore(d.year, d.month) + d.day - 1
  }

  lemma Multiple(k: int, t: int)
    requires k > 0
    ensures t == 0 || k * t >= k || k * t <= -k
  {
    if t > 0 {
      AtLeast(k, t);
    } else if t < 0 {
      AtLeast(k, -t);
      assert k * -t == -(k * t);
    }
  }

  lemma {:induction false} AtLeast(k: int, t: int)
    requires k > 0 && t >= 1
    ensures k * t >= k
    decreases t
  {
    if t > 1 {
      AtLeast(k, t - 1);
      assert k * t == k * (t - 1) + k;
    }
  }

  lemma Quotient(a: int, k: int, q: int)
    requires k > 0 && k * q <= a < k * q + k
    ensures a / k == q && a % k == a - k * q
  {
    Multiple(k, a / k - q);
    assert k * (a / k - q) == k * (a / k) - k * q;
  }

  lemma NextMultiple(n: int, k: int)
    requires k > 1
    ensures (n + k) / k == (n + k - 1) / k + if n % k == 0 then 1 else 0
  {
    var q, r := n / k, n % k;
    assert n == k * q + r;
    assert k * (q + 1) == k * q + k;
    Quotient(n + k, k, q + 1);
    if r == 0 { Quotient(n + k - 1, k, q); } else { Quotient(n + k - 1, k, q + 1); }
  }

  lemma YearLength(year: int)
    ensures DaysToYear(year + 1) == DaysToYear(year) + if Leap(year) then 366 else 365
  {
    NextMultiple(year, 4);
    NextMultiple(year, 100);
    NextMultiple(year, 400);
    Centuries(year);
  }

  lemma Centuries(year: int)
    ensures year % 400 == 0 ==> year % 100 == 0
    ensures year % 100 == 0 ==> year % 4 == 0
  {
  }

  // ----- The computation -----

  /** Division that rounds toward zero. */
  function Trunc(a: int, b: int): int
    requires b > 0
  {
    if a >= 0 then a / b else -(-a / b)
  }

  function Civil(days: int): Date {
    var z := days + 719468;
    var era := Trunc(if z >= 0 then z else z - 146096, 146097);
    var doe := z - era * 146097;
    var yoe := Trunc(doe - Trunc(doe, 1460) + Trunc(doe, 36524) - Trunc(doe, 146096), 365);
    var doy := doe - (365 * yoe + Trunc(yoe, 4) - Trunc(yoe, 100));
    var mp := Trunc(5 * doy + 2, 153);
    var day := doy - Trunc(153 * mp + 2, 5) + 1;
    var month := mp + if mp < 10 then 3 else -9;
    Date(yoe + era * 400 + if month <= 2 then 1 else 0, month, day)
  }

  /** The first day of year `y` of an era, counted from March. */
  function EraStart(y: int): int {
    365 * y + y / 4 - y / 100
  }

  /** The year of an era that a day falls in. */
  function YearOfEra(doe: int): int {
    (doe - doe / 1460 + doe / 36524 - doe / 146096) / 365
  }

  lemma EraStartSteps(y: int)
    requires 0 <= y
    ensures EraStart(y + 1) - EraStart(y) ==
            365 + (if (y + 1) % 4 == 0 then 1 else 0) - (if (y + 1) % 100 == 0 then 1 else 0)
  {
  }

  /** The formula finds the year that contains the day. */
  lemma YearOfEraIsExact(doe: int)
    requires 0 <= doe < 146097
    ensures var y := YearOfEra(doe);
            0 <= y < 400 && EraStart(y) <= doe && (doe < EraStart(y + 1) || (y == 399 && doe == 146096))
  {
    var c := if doe == 146096 then 3 else doe / 36524;
    var inCentury := doe - 36524 * c;
    var q := inCentury / 1461;
    var inQuad := inCentury - 1461 * q;
    var y := if inQuad == 1460 then 3 else inQuad / 365;
    var d := inQuad - 365 * y;
    assert 0 <= c <= 3 && 0 <= inCentury <= 36524;
    assert 0 <= q <= 24 && 0 <= inQuad <= 1460;
    assert 0 <= y <= 3 && 0 <= d <= 365 && (d == 365 ==> y == 3);
    FormulaAt(c, q, y, d);
    StartAt(c, q, y);
  }

  lemma FormulaAt(c: int, q: int, y: int, d: int)
    requires 0 <= c <= 3 && 0 <= q <= 24 && 0 <= y <= 3 && 0 <= d <= 365 && (d == 365 ==> y == 3)
    requires 36524 * c + 1461 * q + 365 * y + d <= 146096
    requires 1461 * q + 365 * y + d == 36524 ==> c == 3
    requires 1461 * q + 365 * y + d <= 36524
    ensures YearOfEra(36524 * c + 1461 * q + 365 * y + d) == 100 * c + 4 * q + y
  {
    var doe := 36524 * c + 1461 * q + 365 * y + d;
    var e := if 24 * c + q + 365 * y + d >= 1460 then 1 else 0;
    Quotient(doe, 1460, 25 * c + q + e);
    if doe < 146096 {
      Quotient(doe, 36524, c);
      Quotient(doe, 146096, 0);
    }
    Quotient(365 * (100 * c + 4 * q + y) + d - e, 365, 100 * c + 4 * q + y);
  }

  lemma StartAt(c: int, q: int, y: int)
    requires 0 <= c <= 3 && 0 <= q <= 24 && 0 <= y <= 3
    ensures var year := 100 * c + 4 * q + y;
            && EraStart(year) == 36524 * c + 1461 * q + 365 * y
            && EraStart(year + 1) ==
                EraStart(year) + 365 + (if y == 3 then 1 else 0) - (if y == 3 && q == 24 then 1 else 0)
  {
    var year := 100 * c + 4 * q + y;
    Quotient(year, 4, 25 * c + q);
    Quotient(year, 100, c);
    Quotient(year + 1, 4, if y == 3 then 25 * c + q + 1 else 25 * c + q);
    Quotient(year + 1, 100, if q == 24 && y == 3 then c + 1 else c);
  }

  // ----- From the formula to the calendar -----

  /** Days from 1 March to the start of a month, months counted from March. */
  function MarchDays(mp: int): int {
    (153 * mp + 2) / 5
  }

  /** The month formula finds the month of a year that starts in March. */
  lemma MonthIsExact(doy: int)
    requires 0 <= doy <= 365
    ensures var mp := (5 * doy + 2) / 153;
            0 <= mp <= 11 && MarchDays(mp) <= doy && (mp < 11 ==> doy < MarchDays(mp + 1))
  {
  }

  /** From March on, the days before a month do not depend on February. */
  lemma MarchMonths(year: int, mp: int)
    requires 0 <= mp <= 11
    ensures mp < 10 ==> DaysBefore(year, mp + 3) == 59 + (if Leap(year) then 1 else 0) + MarchDays(mp)
    ensures mp < 10 ==> DaysInMonth(year, mp + 3) == MarchDays(mp + 1) - MarchDays(mp)
    ensures mp >= 10 ==> DaysBefore(year + 1, mp - 9) == MarchDays(mp) - 306
    ensures mp == 10 ==> DaysInMonth(year + 1, 1) == MarchDays(11) - MarchDays(10)
  {
    var m1 := DaysBefore(year, 1);
    var m2 := DaysBefore(year, 2);
    var m3 := DaysBefore(year, 3);
    var m4 := DaysBefore(year, 4);
    var m5 := DaysBefore(year, 5);
    var m6 := DaysBefore(year, 6);
    var m7 := DaysBefore(year, 7);
    var m8 := DaysBefore(year, 8);
    var m9 := DaysBefore(year, 9);
    var m10 := DaysBefore(year, 10);
    var m11 := DaysBefore(year, 11);
    var m12 := DaysBefore(year, 12);
    assert DaysBefore(year + 1, 2) == 31 + DaysBefore(year + 1, 1);
  }

  /** Days up to 1 March of year `400 * era + y`, from the start of the era's own count. */
  lemma MarchFirst(era: int, y: int)
    requires 0 <= y < 400
    ensures var year := 400 * era + y;
            DaysToYear(year) + 59 + (if Leap(year) then 1 else 0) == 146097 * era + EraStart(y) + 60
  {
    var year := 400 * era + y;
    var q4, q100 := y / 4, y / 100;
    assert y == 4 * q4 + y % 4 && y == 100 * q100 + y % 100;
    Quotient(year, 4, 100 * era + q4);
    Quotient(year, 100, 4 * era + q100);
    Quotient(year, 400, era);
    NextMultiple(year, 4);
    NextMultiple(year, 100);
    NextMultiple(year, 400);
    assert (year + 4) / 4 == year / 4 + 1;
    assert (year + 100) / 100 == year / 100 + 1;
    assert (year + 400) / 400 == year / 400 + 1;
    Centuries(year);
  }

  // ----- Main results -----

  /** The parts of the computation, with floor division. */
  lemma CivilParts(days: int) returns (era: int, y: int, doy: int, mp: int)
    ensures 0 <= y < 400 && 0 <= doy <= 365 && 0 <= mp <= 11
    ensures days + 719468 == 146097 * era + EraStart(y) + doy
    ensures doy < EraStart(y + 1) - EraStart(y) || (y == 399 && doy == 365)
    ensures MarchDays(mp) <= doy && (mp < 11 ==> doy < MarchDays(mp + 1))
    ensures Civil(days) ==
            Date(400 * era + y + (if mp < 10 then 0 else 1), if mp < 10 then mp + 3 else mp - 9,
                 doy - MarchDays(mp) + 1)
  {
    var z := days + 719468;
    era := z / 146097;
    var doe := z - era * 146097;
    EraIsFloor(z);
    YearOfEraIsExact(doe);
    y := YearOfEra(doe);
    EraStartSteps(y);
    doy := doe - EraStart(y);
    MonthIsExact(doy);
    mp := (5 * doy + 2) / 153;
    CivilUnfolds(days, era, doe, y, doy, mp);
  }

  lemma EraIsFloor(z: int)
    ensures Trunc(if z >= 0 then z else z - 146096, 146097) == z / 146097
  {
    if z < 0 {
      var q := z / 146097;
      Quotient(146096 - z, 146097, -q);
    }
  }

  lemma CivilUnfolds(days: int, era: int, doe: int, y: int, doy: int, mp: int)
    requires era == Trunc(if days + 719468 >= 0 then days + 719468 else days + 719468 - 146096, 146097)
    requires doe == days + 719468 - era * 146097 && 0 <= doe < 146097
    requires y == YearOfEra(doe) && 0 <= y < 400 && doy == doe - EraStart(y) && 0 <= doy <= 365
    requires mp == (5 * doy + 2) / 153
    ensures Civil(days) ==
            Date(400 * era + y + (if mp < 10 then 0 else 1), if mp < 10 then mp + 3 else mp - 9,
                 doy - MarchDays(mp) + 1)
  {
  }

  /** For every day number: a valid date, whose day number it is. */
  lemma CivilIsExact(days: int)
    ensures ValidDate(Civil(days)) && DayNumber(Civil(days)) == days
  {
    hide Civil, ValidDate, DayNumber, MarchDays, EraStart;
    var era, y, doy, mp := CivilParts(days);
    if mp < 10 {
      FromMarch(days, era, y, doy, mp);
    } else {
      ToFebruary(days, era, y, doy, mp);
    }
  }

  lemma Epoch()
    ensures DaysToYear(1970) == 719528
  {
  }

  lemma FromMarch(days: int, era: int, y: int, doy: int, mp: int)
    requires 0 <= y < 400 && 0 <= mp < 10
    requires days + 719468 == 146097 * era + EraStart(y) + doy
    requires MarchDays(mp) <= doy < MarchDays(mp + 1)
    ensures var d := Date(400 * era + y, mp + 3, doy - MarchDays(mp) + 1);
            ValidDate(d) && DayNumber(d) == days
  {
    hide DaysToYear, DaysBefore, DaysInMonth, Leap, MarchDays, EraStart;
    Epoch();
    MarchMonths(400 * era + y, mp);
    MarchFirst(era, y);
  }

  lemma ToFebruary(days: int, era: int, y: int, doy: int, mp: int)
    requires 0 <= y < 400 && 10 <= mp <= 11 && 0 <= doy <= 365
    requires days + 719468 == 146097 * era + EraStart(y) + doy
    requires doy < EraStart(y + 1) - EraStart(y) || (y == 399 && doy == 365)
    requires MarchDays(mp) <= doy && (mp < 11 ==> doy < MarchDays(mp + 1))
    ensures var d := Date(400 * era + y + 1, mp - 9, doy - MarchDays(mp) + 1);
            ValidDate(d) && DayNumber(d) == days
  {
    hide DaysToYear, DaysBefore, DaysInMonth, Leap, MarchDays, EraStart;
    Epoch();
    MarchMonths(400 * era + y, mp);
    MarchFirst(era, y);
    YearLength(400 * era + y);
    LastDayOfFebruary(era, y, doy);
  }

  lemma LastDayOfFebruary(era: int, y: int, doy: int)
    requires 0 <= y < 400 && 0 <= doy <= 365
    requires doy < EraStart(y + 1) - EraStart(y) || (y == 399 && doy == 365)
    ensures doy - MarchDays(11) + 1 <= DaysInMonth(400 * era + y + 1, 2)
  {
    var next := 400 * era + y + 1;
    EraStartSteps(y);
    if doy == 365 {
      assert Leap(next) by {
        Quotient(next, 4, 100 * era + (y + 1) / 4);
        Quotient(next, 100, 4 * era + (y + 1) / 100);
        if y == 399 { Quotient(next, 400, era + 1); }
      }
    }
  }

  /** The calendar order of dates. */
  predicate Earlier(a: Date, b: Date) {
    a.year < b.year || (a.year == b.year && (a.month < b.month || (a.month == b.month && a.day < b.day)))
  }

  lemma {:induction false} MonthsGrow(year: int, m: int, n: int)
    requires 1 <= m <= n <= 12
    ensures DaysBefore(year, m) <= DaysBefore(year, n)
    ensures m < n ==> DaysBefore(year, m) + DaysInMonth(year, m) <= DaysBefore(year, n)
    decreases n - m
  {
    if m < n {
      MonthsGrow(year, m + 1, n);
    }
  }

  lemma {:induction false} YearsGrow(a: int, b: int)
    requires a < b
    ensures DaysToYear(a) + (if Leap(a) then 366 else 365) <= DaysToYear(b)
    decreases b - a
  {
    hide DaysToYear, Leap;
    YearLength(a);
    if a + 1 < b { YearsGrow(a + 1, b); }
  }

  lemma WithinYear(d: Date)
    requires ValidDate(d)
    ensures 0 <= DaysBefore(d.year, d.month) + d.day - 1 < if Leap(d.year) then 366 else 365
  {
    MonthsGrow(d.year, 1, d.month);
    MonthsGrow(d.year, d.month, 12);
    hide DaysBefore;
    YearTotal(d.year);
  }

  lemma YearTotal(year: int)
    ensures DaysBefore(year, 1) == 0 && DaysBefore(year, 12) == if Leap(year) then 335 else 334
  {
    MarchMonths(year, 9);
  }

  /** Day numbers grow with the calendar. */
  lemma DayNumberIsMonotone(a: Date, b: Date)
    requires ValidDate(a) && ValidDate(b) && Earlier(a, b)
    ensures DayNumber(a) < DayNumber(b)
  {
    hide DaysBefore, DaysToYear, Leap;
    if a.year < b.year {
      YearsGrow(a.year, b.year);
      WithinYear(a);
      WithinYear(b);
    } else if a.month < b.month {
      MonthsGrow(a.year, a.month, b.month);
    }
  }

  /** So the computation is the inverse of the day count, on every valid date. */
  lemma CivilInvertsDayNumber(d: Date)
    requires ValidDate(d)
    ensures Civil(DayNumber(d)) == d
  {
    hide Civil, DayNumber, ValidDate;
    var c := Civil(DayNumber(d));
    CivilIsExact(DayNumber(d));
    if Earlier(c, d) { DayNumberIsMonotone(c, d); }
    if Earlier(d, c) { DayNumberIsMonotone(d, c); }
  }

  /** Later days give later dates, and the next day is the calendar's next day. */
  lemma CivilFollowsCalendar(days: int, later: int)
    ensures days < later ==> Earlier(Civil(days), Civil(later))
    ensures Civil(days + 1) == NextDay(Civil(days))
  {
    hide Civil, DayNumber, ValidDate, NextDay;
    CivilIsExact(days);
    CivilIsExact(later);
    var d, e := Civil(days), Civil(later);
    NextDayCounts(d);
    CivilInvertsDayNumber(NextDay(d));
    if Earlier(e, d) { DayNumberIsMonotone(e, d); }
  }

  lemma NextDayCounts(d: Date)
    requires ValidDate(d)
    ensures ValidDate(NextDay(d)) && DayNumber(NextDay(d)) == DayNumber(d) + 1
  {
    YearTotal(d.year);
    YearLength(d.year);
    hide DaysToYear, Leap;
  }
}
