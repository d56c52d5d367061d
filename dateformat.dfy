/** The date strings of the revenue chart: date-fns `format` with the
    patterns 'yyyy-MM-dd', 'yyyy-MM', 'MMM dd' and 'MMM yyyy' (English month
    names), and the reading of a 'yyyy-MM-dd' or 'yyyy-MM' string back into an
    instant, as `new Date(key)` does for these date-only forms (they are read
    as UTC midnight, which is local midnight at offset zero). */
module DateFormat {
  import opened Wrappers
  import opened Calendar

  predicate IsDigit(c: char) {
    '0' <= c <= '9'
  }

  predicate AllDigits(s: string) {
    forall i :: 0 <= i < |s| ==> IsDigit(s[i])
  }

  function DigitChar(k: int): (c: char)
    requires 0 <= k <= 9
    ensures IsDigit(c)
  {
    ('0' as int + k) as char
  }

  function DigitValue(c: char): (k: nat)
    requires IsDigit(c)
    ensures k <= 9 && DigitChar(k) == c
  {
    c as int - '0' as int
  }

  function Pow10(w: nat): (p: nat)
    ensures p >= 1
  {
    if w == 0 then 1 else 10 * Pow10(w - 1)
  }

  /** The decimal digits of n, padded on the left with zeros to at least w
      characters (date-fns addLeadingZeros on a non-negative number). */
  function PadDigits(n: nat, w: nat): (s: string)
    ensures |s| >= 1 && AllDigits(s)
    decreases n, w
  {
    if n < 10 && w <= 1 then [DigitChar(n)]
    else PadDigits(n / 10, if w > 0 then w - 1 else 0) + [DigitChar(n % 10)]
  }

  /** The number written by a string of decimal digits. */
  function DigitsValue(s: string): nat
    requires AllDigits(s)
  {
    if s == [] then 0 else DigitsValue(s[..|s| - 1]) * 10 + DigitValue(s[|s| - 1])
  }

  /** Reading the padded digits back gives the number. */
  lemma {:induction false} PadDigitsValue(n: nat, w: nat)
    ensures DigitsValue(PadDigits(n, w)) == n
    decreases n, w
  {
    var s := PadDigits(n, w);
    if n < 10 && w <= 1 {
      assert s[..0] == [];
    } else {
      var w' := if w > 0 then w - 1 else 0;
      PadDigitsValue(n / 10, w');
      assert s[..|s| - 1] == PadDigits(n / 10, w');
    }
  }

  /** A number below 10^w takes exactly w padded digits. */
  lemma {:induction false} PadDigitsLength(n: nat, w: nat)
    requires 1 <= w && n < Pow10(w)
    ensures |PadDigits(n, w)| == w
    decreases w
  {
    if !(n < 10 && w <= 1) {
      PadDigitsLength(n / 10, w - 1);
    }
  }

  /** The 'yyyy' field: the year of the era (1 - y for years up to 0, which
      have no sign in this pattern), padded to four digits. */
  function YearField(y: int): string {
    PadDigits(if y > 0 then y else 1 - y, 4)
  }

  /** The three English month abbreviations of the 'MMM' pattern. */
  function MonthName(m: int): (s: string)
    requires 1 <= m <= 12
    ensures |s| == 3
  {
    ["Jan", "Feb", "Mar", "Apr", "May", "Jun", "Jul", "Aug", "Sep", "Oct", "Nov", "Dec"][m - 1]
  }

  /** The 'yyyy-MM-dd' spelling of a date. */
  function DateText(c: Date): string
    requires ValidDate(c)
  {
    YearField(c.year) + "-" + PadDigits(c.month, 2) + "-" + PadDigits(c.day, 2)
  }

  /** The 'yyyy-MM' spelling of a date's month. */
  function MonthText(c: Date): string
    requires ValidDate(c)
  {
    YearField(c.year) + "-" + PadDigits(c.month, 2)
  }

  /** format(t, 'yyyy-MM-dd') */
  function FormatYMD(t: int): string {
    CivilFromDaysValid(DayOf(t));
    DateText(CivilFromDays(DayOf(t)))
  }

  /** format(t, 'yyyy-MM') */
  function FormatYM(t: int): string {
    CivilFromDaysValid(DayOf(t));
    MonthText(CivilFromDays(DayOf(t)))
  }

  /** format(t, 'MMM dd') */
  function FormatMonDD(t: int): string {
    var c := CivilFromDays(DayOf(t));
    CivilFromDaysValid(DayOf(t));
    MonthName(c.month) + " " + PadDigits(c.day, 2)
  }

  /** format(t, 'MMM yyyy') */
  function FormatMonYYYY(t: int): string {
    var c := CivilFromDays(DayOf(t));
    CivilFromDaysValid(DayOf(t));
    MonthName(c.month) + " " + YearField(c.year)
  }

  /** The day numbers of 0001-01-01 and 9999-12-31: the days whose year
      both prints and reads back as four digits (FourDigitYearBounds). */
  const FirstDay: int := -719_162
  const LastDay: int := 2_932_896

  predicate FourDigitYear(d: int) {
    FirstDay <= d <= LastDay
  }

  /** A day lies between 0001-01-01 and 9999-12-31 exactly when its year is
      one of 1 to 9999. */
  lemma FourDigitYearBounds(d: int)
    ensures FourDigitYear(d) <==> 1 <= CivilFromDays(d).year <= 9999
  {
    CivilFromDaysValid(d);
    DateYearBounds(CivilFromDays(d));
  }

  lemma DateYearBounds(c: Date)
    requires ValidDate(c)
    ensures FourDigitYear(DaysFromCivil(c)) <==> 1 <= c.year <= 9999
  {
    var y := c.year;
    DateInYear(c);
    YearStartClosedForm(y);
    YearStartClosedForm(y + 1);
    ClosedFormBounds(y - 1);
    ClosedFormBounds(y);
  }

  /** Where the closed form of YearStart crosses the first days of years 1 and 10000. */
  lemma ClosedFormBounds(p: int)
    ensures var n := 365 * p + p / 4 - p / 100 + p / 400;
            (n >= 0 <==> p >= 0) && (n > 0 <==> p > 0)
            && (n >= 3_652_059 <==> p >= 9999) && (n > 3_652_059 <==> p > 9999)
  {
    assert 4 * (p / 4) <= p < 4 * (p / 4) + 4;
    assert 100 * (p / 100) <= p < 100 * (p / 100) + 100;
    assert 400 * (p / 400) <= p < 400 * (p / 400) + 400;
  }

  /** `new Date(key)` on the two key shapes the component formats: a
      'yyyy-MM-dd' or 'yyyy-MM' string reads as the instant of midnight on
      that date (the first of the month for 'yyyy-MM'). Every other string,
      and an impossible date, is taken as an Invalid Date (None). */
  function ParseIsoDate(s: string): (r: Option<int>)
    ensures r.Some? ==> TimeOfDay(r.value) == 0
    ensures r.Some? ==> (|s| == 10 || |s| == 7) && AllDigits(s[..4]) && s[4] == '-'
  {
    if |s| == 10 && AllDigits(s[..4]) && s[4] == '-' && AllDigits(s[5..7])
       && s[7] == '-' && AllDigits(s[8..]) then
      var dt := Date(DigitsValue(s[..4]), DigitsValue(s[5..7]), DigitsValue(s[8..]));
      if ValidDate(dt) then Some(Midnight(DaysFromCivil(dt))) else None
    else if |s| == 7 && AllDigits(s[..4]) && s[4] == '-' && AllDigits(s[5..]) then
      var y, m := DigitsValue(s[..4]), DigitsValue(s[5..]);
      if 1 <= m <= 12 then Some(Midnight(DaysFromCivil(Date(y, m, 1)))) else None
    else None
  }

  lemma FieldLengths(c: Date)
    requires ValidDate(c) && 1 <= c.year <= 9999
    ensures |YearField(c.year)| == 4 && |PadDigits(c.month, 2)| == 2 && |PadDigits(c.day, 2)| == 2
    ensures DigitsValue(YearField(c.year)) == c.year
    ensures DigitsValue(PadDigits(c.month, 2)) == c.month
    ensures DigitsValue(PadDigits(c.day, 2)) == c.day
  {
    assert Pow10(2) == 100 && Pow10(4) == 10000;
    PadDigitsLength(c.year, 4);
    PadDigitsLength(c.month, 2);
    PadDigitsLength(c.day, 2);
    PadDigitsValue(c.year, 4);
    PadDigitsValue(c.month, 2);
    PadDigitsValue(c.day, 2);
  }

  /** A 'yyyy-MM-dd' string of a day with a four-digit year reads back as
      that day's midnight. */
  lemma ParseFormatYMD(t: int)
    requires FourDigitYear(DayOf(t))
    ensures ParseIsoDate(FormatYMD(t)) == Some(StartOfDay(t))
  {
    var c := CivilFromDays(DayOf(t));
    CivilFromDaysValid(DayOf(t));
    FourDigitYearBounds(DayOf(t));
    FieldLengths(c);
    var a, b, e := YearField(c.year), PadDigits(c.month, 2), PadDigits(c.day, 2);
    var s := FormatYMD(t);
    assert s == a + "-" + b + "-" + e;
    assert s[..4] == a && s[5..7] == b && s[8..] == e;
  }

  /** A 'yyyy-MM' string of a day with a four-digit year reads back as the
      midnight that starts its month. */
  lemma ParseFormatYM(t: int)
    requires FourDigitYear(DayOf(t))
    ensures ParseIsoDate(FormatYM(t)) == Some(StartOfMonth(t))
  {
    var c := CivilFromDays(DayOf(t));
    CivilFromDaysValid(DayOf(t));
    FourDigitYearBounds(DayOf(t));
    FieldLengths(c);
    var a, b := YearField(c.year), PadDigits(c.month, 2);
    var s := FormatYM(t);
    assert s == a + "-" + b;
    assert s[..4] == a && s[5..] == b;
  }
}
