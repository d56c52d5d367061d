/** Proleptic Gregorian calendar on day numbers, and the date-fns
    operations the revenue chart uses (startOfDay, startOfWeek,
    startOfMonth, addDays, addWeeks, addMonths).

    An instant is a whole number of milliseconds since 1970-01-01T00:00
    local time; the local zone is taken to have offset zero and no
    daylight-saving changes, so every calendar day is 86 400 000 ms long.
    Day number 0 is 1970-01-01, a Thursday. */
module Calendar {

  const MsPerDay: int := 86_400_000

  /** A calendar date: year (proleptic, may be zero or negative), month 1..12, day 1..31. */
  datatype Date = Date(year: int, month: int, day: int)

  predicate IsLeapYear(y: int) {
    y % 4 == 0 && (y % 100 != 0 || y % 400 == 0)
  }

  function YearLength(y: int): int {
    if IsLeapYear(y) then 366 else 365
  }

  /** Days in month m of year y (any m other than 2, 4, 6, 9, 11 has 31). */
  function MonthLength(y: int, m: int): (n: int)
    ensures 28 <= n <= 31
    ensures n == 29 <==> m == 2 && IsLeapYear(y)
  {
    if m == 2 then (if IsLeapYear(y) then 29 else 28)
    else if m == 4 || m == 6 || m == 9 || m == 11 then 30
    else 31
  }

  /** Days of year y before the first of month m; m = 13 gives the whole year. */
  function DaysBeforeMonth(y: int, m: int): (n: int)
    requires 1 <= m <= 13
    ensures 28 * (m - 1) <= n <= 31 * (m - 1)
  {
    if m == 1 then 0 else DaysBeforeMonth(y, m - 1) + MonthLength(y, m - 1)
  }

  lemma DaysBeforeMonthStep(y: int, m: int)
    requires 1 <= m <= 12
    ensures DaysBeforeMonth(y, m + 1) == DaysBeforeMonth(y, m) + MonthLength(y, m)
    ensures DaysBeforeMonth(y, 1) == 0 && DaysBeforeMonth(y, 13) == YearLength(y)
  {
    assert DaysBeforeMonth(y, 2) == 31;
    assert DaysBeforeMonth(y, 3) == 31 + MonthLength(y, 2);
    assert DaysBeforeMonth(y, 4) == 62 + MonthLength(y, 2);
    assert DaysBeforeMonth(y, 5) == 92 + MonthLength(y, 2);
    assert DaysBeforeMonth(y, 6) == 123 + MonthLength(y, 2);
    assert DaysBeforeMonth(y, 7) == 153 + MonthLength(y, 2);
    assert DaysBeforeMonth(y, 8) == 184 + MonthLength(y, 2);
    assert DaysBeforeMonth(y, 9) == 215 + MonthLength(y, 2);
    assert DaysBeforeMonth(y, 10) == 245 + MonthLength(y, 2);
    assert DaysBeforeMonth(y, 11) == 276 + MonthLength(y, 2);
    assert DaysBeforeMonth(y, 12) == 306 + MonthLength(y, 2);
    assert DaysBeforeMonth(y, 13) == 337 + MonthLength(y, 2);
  }

  /** Later months of a year start later. */
  lemma {:induction false} DaysBeforeMonthMonotone(y: int, m1: int, m2: int)
    requires 1 <= m1 <= m2 <= 13
    ensures DaysBeforeMonth(y, m1) + 28 * (m2 - m1) <= DaysBeforeMonth(y, m2)
    decreases m2 - m1
  {
    if m1 < m2 {
      DaysBeforeMonthMonotone(y, m1, m2 - 1);
    }
  }

  /** A day of the year lies in at most one month. */
  lemma MonthBracketUnique(y: int, m1: int, m2: int, doy: int)
    requires 1 <= m1 <= 12 && 1 <= m2 <= 12
    requires DaysBeforeMonth(y, m1) <= doy < DaysBeforeMonth(y, m1 + 1)
    requires DaysBeforeMonth(y, m2) <= doy < DaysBeforeMonth(y, m2 + 1)
    ensures m1 == m2
  {
    if m1 < m2 {
      DaysBeforeMonthMonotone(y, m1 + 1, m2);
    } else if m2 < m1 {
      DaysBeforeMonthMonotone(y, m2 + 1, m1);
    }
  }

  predicate ValidDate(dt: Date) {
    1 <= dt.month <= 12 && 1 <= dt.day <= MonthLength(dt.year, dt.month)
  }

  /** Day number of 1 January of year y, counted year by year from 1970. */
  function YearStart(y: int): int
    decreases if y < 1970 then 1970 - y else y - 1970
  {
    if y == 1970 then 0
    else if y > 1970 then YearStart(y - 1) + YearLength(y - 1)
    else YearStart(y + 1) - YearLength(y)
  }

  /** Consecutive years' first days are one year length apart. */
  lemma YearStartStep(y: int)
    ensures YearStart(y + 1) == YearStart(y) + YearLength(y)
  {
  }

  lemma FloorDivStep(y: int)
    ensures y / 4 - (y - 1) / 4 == (if y % 4 == 0 then 1 else 0)
    ensures y / 100 - (y - 1) / 100 == (if y % 100 == 0 then 1 else 0)
    ensures y / 400 - (y - 1) / 400 == (if y % 400 == 0 then 1 else 0)
    ensures y % 100 == 0 ==> y % 4 == 0
    ensures y % 400 == 0 ==> y % 100 == 0
  {
    if y % 100 == 0 {
      var q := y / 100;
      assert y == 4 * (25 * q);
    }
    if y % 400 == 0 {
      var q := y / 400;
      assert y == 100 * (4 * q);
    }
  }

  /** The usual closed form: 365 days a year plus the leap days of the
      years before, counted with floor division; 719162 is the number of
      days from 0001-01-01 to 1970-01-01. */
  lemma {:induction false} YearStartClosedForm(y: int)
    ensures var p := y - 1;
            YearStart(y) == 365 * p + p / 4 - p / 100 + p / 400 - 719162
    decreases if y < 1970 then 1970 - y else y - 1970
  {
    if y > 1970 {
      YearStartClosedForm(y - 1);
      FloorDivStep(y - 1);
    } else if y < 1970 {
      YearStartClosedForm(y + 1);
      FloorDivStep(y);
    }
  }

  lemma {:induction false} YearStartMonotone(a: int, b: int)
    requires a <= b
    ensures YearStart(a) + 365 * (b - a) <= YearStart(b)
    decreases b - a
  {
    if a < b {
      YearStartMonotone(a, b - 1);
      YearStartStep(b - 1);
    }
  }

  /** A day lies between the first days of at most one pair of consecutive years. */
  lemma YearBracketUnique(y1: int, y2: int, d: int)
    requires YearStart(y1) <= d < YearStart(y1 + 1)
    requires YearStart(y2) <= d < YearStart(y2 + 1)
    ensures y1 == y2
  {
    if y1 < y2 {
      YearStartMonotone(y1 + 1, y2);
    } else if y2 < y1 {
      YearStartMonotone(y2 + 1, y1);
    }
  }

  /** Day number of a valid date. */
  function DaysFromCivil(dt: Date): int
    requires ValidDate(dt)
  {
    YearStart(dt.year) + DaysBeforeMonth(dt.year, dt.month) + dt.day - 1
  }

  /** The day after a date. */
  function NextDate(c: Date): Date {
    if c.day < MonthLength(c.year, c.month) then Date(c.year, c.month, c.day + 1)
    else if c.month < 12 then Date(c.year, c.month + 1, 1)
    else Date(c.year + 1, 1, 1)
  }

  /** The day before a date. */
  function PrevDate(c: Date): Date {
    if c.day > 1 then Date(c.year, c.month, c.day - 1)
    else if c.month > 1 then Date(c.year, c.month - 1, MonthLength(c.year, c.month - 1))
    else Date(c.year - 1, 12, 31)
  }

  lemma NextDateDays(c: Date)
    requires ValidDate(c)
    ensures ValidDate(NextDate(c)) && DaysFromCivil(NextDate(c)) == DaysFromCivil(c) + 1
  {
    DaysBeforeMonthStep(c.year, c.month);
    YearStartStep(c.year);
  }

  lemma PrevDateDays(c: Date)
    requires ValidDate(c)
    ensures ValidDate(PrevDate(c)) && DaysFromCivil(PrevDate(c)) == DaysFromCivil(c) - 1
  {
    if c.month > 1 {
      DaysBeforeMonthStep(c.year, c.month - 1);
    } else {
      DaysBeforeMonthStep(c.year - 1, 12);
      YearStartStep(c.year - 1);
    }
  }

  /** The calendar date of day number d, counted day by day from 1970-01-01. */
  function CivilFromDays(d: int): Date
    decreases if d < 0 then -d else d
  {
    if d == 0 then Date(1970, 1, 1)
    else if d > 0 then NextDate(CivilFromDays(d - 1))
    else PrevDate(CivilFromDays(d + 1))
  }

  /** CivilFromDays gives a valid date whose day number is d. */
  lemma {:induction false} CivilFromDaysValid(d: int)
    ensures ValidDate(CivilFromDays(d)) && DaysFromCivil(CivilFromDays(d)) == d
    decreases if d < 0 then -d else d
  {
    if d > 0 {
      CivilFromDaysValid(d - 1);
      NextDateDays(CivilFromDays(d - 1));
    } else if d < 0 {
      CivilFromDaysValid(d + 1);
      PrevDateDays(CivilFromDays(d + 1));
    } else {
      assert DaysFromCivil(Date(1970, 1, 1)) == 0;
    }
  }

  /** Different valid dates have different day numbers. */
  lemma DaysFromCivilInjective(a: Date, b: Date)
    requires ValidDate(a) && ValidDate(b)
    requires DaysFromCivil(a) == DaysFromCivil(b)
    ensures a == b
  {
    var d := DaysFromCivil(a);
    DateInYear(a);
    DateInYear(b);
    YearBracketUnique(a.year, b.year, d);
    MonthBracketUnique(a.year, a.month, b.month, d - YearStart(a.year));
  }

  /** A valid date's day number lies in its year and its month. */
  lemma DateInYear(a: Date)
    requires ValidDate(a)
    ensures YearStart(a.year) <= DaysFromCivil(a) < YearStart(a.year + 1)
    ensures var doy := DaysFromCivil(a) - YearStart(a.year);
            DaysBeforeMonth(a.year, a.month) <= doy < DaysBeforeMonth(a.year, a.month + 1)
  {
    DayInMonth(a);
    MonthInYear(a.year, a.month);
    DayInYear(a.year, DaysFromCivil(a) - YearStart(a.year));
  }

  lemma DayInMonth(a: Date)
    requires ValidDate(a)
    ensures var doy := DaysFromCivil(a) - YearStart(a.year);
            DaysBeforeMonth(a.year, a.month) <= doy < DaysBeforeMonth(a.year, a.month + 1)
  {
    DaysBeforeMonthStep(a.year, a.month);
  }

  lemma MonthInYear(y: int, m: int)
    requires 1 <= m <= 12
    ensures DaysBeforeMonth(y, m + 1) <= YearLength(y)
  {
    DaysBeforeMonthMonotone(y, m + 1, 13);
    DaysBeforeMonthStep(y, 12);
  }

  lemma DayInYear(y: int, x: int)
    requires 0 <= x < YearLength(y)
    ensures YearStart(y) <= YearStart(y) + x < YearStart(y + 1)
  {
    YearStartStep(y);
  }

  /** Converting a valid date to its day number and back gives the date. */
  lemma CivilRoundTrip(dt: Date)
    requires ValidDate(dt)
    ensures CivilFromDays(DaysFromCivil(dt)) == dt
  {
    CivilFromDaysValid(DaysFromCivil(dt));
    DaysFromCivilInjective(CivilFromDays(DaysFromCivil(dt)), dt);
  }

  /** Day of the week, Sunday = 0 (date-fns getDay). */
  function Weekday(d: int): (w: int)
    ensures 0 <= w < 7
  {
    (d + 4) % 7
  }

  /** getDay's numbering: 1970-01-04 is a Sunday, and each day is the next
      weekday of the one before, Saturday (6) being followed by Sunday (0). */
  lemma WeekdayNumbering(d: int)
    ensures Weekday(DaysFromCivil(Date(1970, 1, 4))) == 0
    ensures Weekday(d + 1) == (Weekday(d) + 1) % 7
  {
    assert DaysFromCivil(Date(1970, 1, 4)) == 3;
  }

  /** Index of a month counted from January of year 0. */
  function MonthIndex(dt: Date): int {
    12 * dt.year + dt.month - 1
  }

  /** The first day of the month with the given month index. */
  function MonthOfIndex(i: int): (dt: Date)
    ensures ValidDate(dt) && dt.day == 1
  {
    Date(i / 12, i % 12 + 1, 1)
  }

  /** The first day of month index i has month index i. */
  lemma MonthOfIndexIndex(i: int)
    ensures MonthIndex(MonthOfIndex(i)) == i
  {
  }

  /** Month indexes number the months without gaps or repeats. */
  lemma MonthOfIndexOf(dt: Date)
    requires ValidDate(dt)
    ensures MonthOfIndex(MonthIndex(dt)) == Date(dt.year, dt.month, 1)
  {
    var i := MonthIndex(dt);
    assert i == 12 * dt.year + (dt.month - 1);
    assert i / 12 == dt.year && i % 12 == dt.month - 1;
  }

  /** Month index i + 1 is the month after month index i. */
  lemma MonthOfIndexNext(i: int)
    ensures var a := MonthOfIndex(i);
            MonthOfIndex(i + 1) == if a.month < 12 then Date(a.year, a.month + 1, 1) else Date(a.year + 1, 1, 1)
  {
    var a := MonthOfIndex(i);
    MonthOfIndexIndex(i);
    var b := if a.month < 12 then Date(a.year, a.month + 1, 1) else Date(a.year + 1, 1, 1);
    assert MonthIndex(b) == i + 1;
    MonthOfIndexOf(b);
  }

  /** The first of the next month is one month length after the first of this one. */
  lemma MonthStartStep(i: int)
    ensures var a := MonthOfIndex(i);
            DaysFromCivil(MonthOfIndex(i + 1)) == DaysFromCivil(a) + MonthLength(a.year, a.month)
  {
    MonthOfIndexNext(i);
    NextMonthStart(MonthOfIndex(i));
  }

  /** The first of the month after that of a is one month length later. */
  lemma NextMonthStart(a: Date)
    requires ValidDate(a) && a.day == 1
    ensures DaysFromCivil(if a.month < 12 then Date(a.year, a.month + 1, 1) else Date(a.year + 1, 1, 1))
            == DaysFromCivil(a) + MonthLength(a.year, a.month)
  {
    DaysBeforeMonthStep(a.year, a.month);
    if a.month == 12 {
      YearStartStep(a.year);
    }
  }

  function DayOf(t: int): int {
    t / 86_400_000
  }

  function TimeOfDay(t: int): int {
    t % 86_400_000
  }

  /** Midnight of day number d. */
  function Midnight(d: int): (t: int)
    ensures DayOf(t) == d && TimeOfDay(t) == 0
  {
    d * 86_400_000
  }

  lemma InstantParts(t: int)
    ensures t == Midnight(DayOf(t)) + TimeOfDay(t) && 0 <= TimeOfDay(t) < MsPerDay
  {
  }

  /** An instant is determined by its day number and its time of day. */
  lemma SplitInstant(d: int, tod: int)
    requires 0 <= tod < MsPerDay
    ensures DayOf(Midnight(d) + tod) == d && TimeOfDay(Midnight(d) + tod) == tod
  {
  }

  /** date-fns startOfDay: the same day at 00:00. */
  function StartOfDay(t: int): (r: int)
    ensures TimeOfDay(r) == 0 && DayOf(r) == DayOf(t)
    ensures r <= t < r + MsPerDay
  {
    Midnight(DayOf(t))
  }

  /** date-fns startOfWeek with the default week start, Sunday: the Sunday on
      or before the day of t, at 00:00. */
  function StartOfWeek(t: int): (r: int)
    ensures TimeOfDay(r) == 0 && Weekday(DayOf(r)) == 0
    ensures r <= t < r + 7 * 86_400_000
  {
    var d := DayOf(t);
    Midnight(d - Weekday(d))
  }

  /** date-fns startOfMonth: the first of the same month, at 00:00. */
  function StartOfMonth(t: int): (r: int)
    ensures TimeOfDay(r) == 0 && r <= t
    ensures var c := CivilFromDays(DayOf(t));
            CivilFromDays(DayOf(r)) == Date(c.year, c.month, 1)
            && t < r + 86_400_000 * MonthLength(c.year, c.month)
  {
    var c := CivilFromDays(DayOf(t));
    CivilFromDaysValid(DayOf(t));
    var first := Date(c.year, c.month, 1);
    CivilRoundTrip(first);
    Midnight(DaysFromCivil(first))
  }

  /** date-fns addDays: n calendar days later, same time of day. */
  function AddDays(t: int, n: int): (r: int)
    ensures DayOf(r) == DayOf(t) + n && TimeOfDay(r) == TimeOfDay(t)
  {
    t + 86_400_000 * n
  }

  /** date-fns addWeeks: 7n days later. */
  function AddWeeks(t: int, n: int): (r: int)
    ensures DayOf(r) == DayOf(t) + 7 * n && TimeOfDay(r) == TimeOfDay(t)
  {
    AddDays(t, 7 * n)
  }

  /** date-fns addMonths: the same day of the month n months later, clamped
      to the last day of a shorter month, same time of day. */
  function AddMonths(t: int, n: int): (r: int)
    ensures TimeOfDay(r) == TimeOfDay(t)
    ensures var c := CivilFromDays(DayOf(t));
            var c' := CivilFromDays(DayOf(r));
            MonthIndex(c') == MonthIndex(c) + n
            && c'.day == (if c.day <= MonthLength(c'.year, c'.month) then c.day
                          else MonthLength(c'.year, c'.month))
  {
    var c := CivilFromDays(DayOf(t));
    CivilFromDaysValid(DayOf(t));
    var dt := ShiftedDate(c, n);
    CivilRoundTrip(dt);
    AtDate(dt, t)
  }

  /** The instant on date dt at the time of day of t. */
  function AtDate(dt: Date, t: int): (r: int)
    requires ValidDate(dt)
    ensures DayOf(r) == DaysFromCivil(dt) && TimeOfDay(r) == TimeOfDay(t)
  {
    SplitInstant(DaysFromCivil(dt), TimeOfDay(t));
    Midnight(DaysFromCivil(dt)) + TimeOfDay(t)
  }

  /** The date n months after c, its day clamped to the last day of the
      target month when that month is shorter. */
  function ShiftedDate(c: Date, n: int): (dt: Date)
    requires ValidDate(c)
    ensures ValidDate(dt) && MonthIndex(dt) == MonthIndex(c) + n
    ensures dt.day == if c.day <= MonthLength(dt.year, dt.month) then c.day else MonthLength(dt.year, dt.month)
  {
    var i := MonthIndex(c) + n;
    var y, m := i / 12, i % 12 + 1;
    Date(y, m, if c.day <= MonthLength(y, m) then c.day else MonthLength(y, m))
  }
}
