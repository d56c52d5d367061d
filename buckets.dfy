/** Time buckets of the revenue chart (TimeSeriesGraph.tsx): the bucket key
    of an invoice at each granularity, the key the gap-filling walk rebuilds
    from a date, and the walk's step.

    Buckets are numbered: a daily bucket by its day number, a weekly bucket
    by the number of Sundays since 1970-01-04 (day 3, the first Sunday), a
    monthly bucket by its month index. IndexStart gives the first day of a
    bucket; the buckets of one granularity tile the days without gaps. */
module Buckets {
  import opened Wrappers
  import opened Calendar
  import opened DateFormat

  /** The chart's time range selector: 'daily' | 'weekly' | 'monthly'. */
  datatype TimeRange = Daily | Weekly | Monthly

  /** First day of bucket i. */
  function IndexStart(range: TimeRange, i: int): int {
    match range
    case Daily => i
    case Weekly => 7 * i + 3
    case Monthly => DaysFromCivil(MonthOfIndex(i))
  }

  /** Each bucket is at least one day long, and a week bucket is seven days long. */
  lemma IndexStartStep(range: TimeRange, i: int)
    ensures IndexStart(range, i) < IndexStart(range, i + 1)
    ensures range == Weekly ==> IndexStart(range, i + 1) == IndexStart(range, i) + 7
  {
    if range == Monthly {
      MonthStartStep(i);
    }
  }

  lemma {:induction false} IndexStartMonotone(range: TimeRange, i: int, j: int)
    requires i <= j
    ensures IndexStart(range, i) + (j - i) <= IndexStart(range, j)
    decreases j - i
  {
    if i < j {
      IndexStartMonotone(range, i, j - 1);
      IndexStartStep(range, j - 1);
    }
  }

  /** Buckets start in the order of their numbers. */
  lemma IndexStartOrder(range: TimeRange, i: int, j: int)
    ensures IndexStart(range, i) <= IndexStart(range, j) <==> i <= j
  {
    if i <= j {
      IndexStartMonotone(range, i, j);
    } else {
      IndexStartMonotone(range, j, i);
    }
  }

  /** Day d lies in bucket i. */
  predicate InBucket(range: TimeRange, i: int, d: int) {
    IndexStart(range, i) <= d < IndexStart(range, i + 1)
  }

  /** The week bucket of day d: the number of Sundays after day 3 up to d. */
  function WeekIndex(d: int): (i: int)
    ensures InBucket(Weekly, i, d)
  {
    (d - 3) / 7
  }

  /** The month bucket of day d: the month index of its date. */
  function MonthIndexOfDay(d: int): (i: int)
    ensures InBucket(Monthly, i, d)
  {
    var c := CivilFromDays(d);
    CivilFromDaysValid(d);
    MonthBracket(c);
    MonthIndex(c)
  }

  /** The bucket that contains day d. */
  function BucketIndex(range: TimeRange, d: int): (i: int)
    ensures InBucket(range, i, d)
  {
    match range
    case Daily => d
    case Weekly => WeekIndex(d)
    case Monthly => MonthIndexOfDay(d)
  }

  /** A date lies in the month bucket of its month index. */
  lemma MonthBracket(c: Date)
    requires ValidDate(c)
    ensures InBucket(Monthly, MonthIndex(c), DaysFromCivil(c))
  {
    var i := MonthIndex(c);
    var f := Date(c.year, c.month, 1);
    MonthOfIndexOf(c);
    MonthStartStep(i);
    assert MonthOfIndex(i) == f;
    assert DaysFromCivil(c) == DaysFromCivil(f) + c.day - 1;
  }

  /** A day in bucket i or later lies before the end of bucket j only if i <= j. */
  lemma BracketBelow(range: TimeRange, i: int, j: int, d: int)
    requires IndexStart(range, i) <= d < IndexStart(range, j + 1)
    ensures i <= j
  {
    if j < i {
      IndexStartMonotone(range, j + 1, i);
    }
  }

  /** Two buckets that contain the same day are the same bucket. */
  lemma BracketUnique(range: TimeRange, i: int, j: int, d: int)
    requires InBucket(range, i, d) && InBucket(range, j, d)
    ensures i == j
  {
    BracketBelow(range, i, j, d);
    BracketBelow(range, j, i, d);
  }

  /** A day belongs to exactly one bucket. */
  lemma BucketIndexUnique(range: TimeRange, i: int, d: int)
    requires InBucket(range, i, d)
    ensures BucketIndex(range, d) == i
  {
    BracketUnique(range, i, BucketIndex(range, d), d);
  }

  /** Later days fall in the same or later buckets. */
  lemma BucketIndexMonotone(range: TimeRange, d1: int, d2: int)
    requires d1 <= d2
    ensures BucketIndex(range, d1) <= BucketIndex(range, d2)
  {
    BucketsInOrder(range, BucketIndex(range, d1), BucketIndex(range, d2), d1, d2);
  }

  /** The bucket of an earlier day is no later than the bucket of a later day. */
  lemma BucketsInOrder(range: TimeRange, i: int, j: int, d1: int, d2: int)
    requires InBucket(range, i, d1) && InBucket(range, j, d2) && d1 <= d2
    ensures i <= j
  {
    BracketBelow(range, i, j, d1);
  }

  /** Between two days there are no more bucket boundaries than day
      boundaries: a week or month chart never has more buckets than the
      daily one. */
  lemma BucketIndexGap(range: TimeRange, d1: int, d2: int)
    requires d1 <= d2
    ensures 0 <= BucketIndex(range, d2) - BucketIndex(range, d1) <= d2 - d1
  {
    var i, j := BucketIndex(range, d1), BucketIndex(range, d2);
    BucketsGap(range, i, j, d1, d2);
  }

  /** A day of bucket i and a later day of bucket j are at least j - i days apart. */
  lemma BucketsGap(range: TimeRange, i: int, j: int, d1: int, d2: int)
    requires InBucket(range, i, d1) && InBucket(range, j, d2) && d1 <= d2
    ensures 0 <= j - i <= d2 - d1
  {
    BucketsInOrder(range, i, j, d1, d2);
    if i < j {
      BucketsApart(range, i, j, d1, d2);
    }
  }

  /** A day before the end of bucket i and a day from the start of a later
      bucket j on are at least j - i days apart. */
  lemma BucketsApart(range: TimeRange, i: int, j: int, d1: int, d2: int)
    requires i < j && d1 < IndexStart(range, i + 1) && IndexStart(range, j) <= d2
    ensures j - i <= d2 - d1
  {
    IndexStartMonotone(range, i + 1, j);
  }

  /** Lines 34-44: the date-fns start of the bucket of an instant. */
  function BucketStart(range: TimeRange, t: int): (r: int)
    ensures r == Midnight(IndexStart(range, BucketIndex(range, DayOf(t))))
  {
    match range
    case Daily => StartOfDay(t)
    case Weekly => StartOfWeek(t)
    case Monthly =>
      CivilFromDaysValid(DayOf(t));
      MonthOfIndexOf(CivilFromDays(DayOf(t)));
      StartOfMonth(t)
  }

  /** Lines 34-44: the key under which an invoice created at t is accumulated. */
  function BucketKey(range: TimeRange, t: int): string {
    match range
    case Daily => FormatYMD(StartOfDay(t))
    case Weekly => FormatYMD(StartOfWeek(t))
    case Monthly => FormatYM(StartOfMonth(t))
  }

  /** Line 69: the key the walk formats from its current date. */
  function WalkKey(range: TimeRange, t: int): string {
    if range == Monthly then FormatYM(t) else FormatYMD(t)
  }

  /** Lines 75-85: the walk's step to the next bucket. */
  function Step(range: TimeRange, t: int): int {
    match range
    case Daily => AddDays(t, 1)
    case Weekly => AddWeeks(t, 1)
    case Monthly => AddMonths(t, 1)
  }

  /** The key of bucket i: the date of its first day, or its month. */
  function KeyAt(range: TimeRange, i: int): string {
    match range
    case Daily => CivilFromDaysValid(i); DateText(CivilFromDays(i))
    case Weekly => CivilFromDaysValid(7 * i + 3); DateText(CivilFromDays(7 * i + 3))
    case Monthly => MonthText(MonthOfIndex(i))
  }

  /** The walk formats the first midnight of bucket i as bucket i's key. */
  lemma KeyAtIsWalkKey(range: TimeRange, i: int)
    ensures WalkKey(range, Midnight(IndexStart(range, i))) == KeyAt(range, i)
  {
    if range == Monthly {
      CivilRoundTrip(MonthOfIndex(i));
    }
  }

  /** Bucket i starts on a day whose key has a four-digit year. */
  predicate SupportedIndex(range: TimeRange, i: int) {
    FourDigitYear(IndexStart(range, i))
  }

  /** The bucket of an instant starts on a day whose key has a four-digit
      year, the years for which `new Date(key)` reads a key back. */
  predicate Supported(range: TimeRange, t: int) {
    SupportedIndex(range, BucketIndex(range, DayOf(t)))
  }

  /** Buckets between two supported buckets are supported. */
  lemma SupportedBetween(range: TimeRange, lo: int, i: int, hi: int)
    requires SupportedIndex(range, lo) && SupportedIndex(range, hi) && lo <= i <= hi
    ensures SupportedIndex(range, i)
  {
    IndexStartMonotone(range, lo, i);
    IndexStartMonotone(range, i, hi);
  }

  /** The accumulation key of an invoice is the walk's key of its bucket. */
  lemma BucketKeyIsKeyAt(range: TimeRange, t: int)
    ensures BucketKey(range, t) == KeyAt(range, BucketIndex(range, DayOf(t)))
  {
    assert BucketKey(range, t) == WalkKey(range, BucketStart(range, t));
    KeyAtIsWalkKey(range, BucketIndex(range, DayOf(t)));
  }

  /** A supported bucket's key reads back as the bucket's first midnight. */
  lemma ParseKeyAt(range: TimeRange, i: int)
    requires SupportedIndex(range, i)
    ensures ParseIsoDate(KeyAt(range, i)) == Some(Midnight(IndexStart(range, i)))
  {
    var t := Midnight(IndexStart(range, i));
    KeyAtIsWalkKey(range, i);
    if range == Monthly {
      ParseFormatYM(t);
      CivilRoundTrip(MonthOfIndex(i));
    } else {
      ParseFormatYMD(t);
    }
  }

  /** Supported buckets have distinct keys. */
  lemma KeyAtInjective(range: TimeRange, i: int, j: int)
    requires SupportedIndex(range, i) && SupportedIndex(range, j)
    requires KeyAt(range, i) == KeyAt(range, j)
    ensures i == j
  {
    ParseKeyAt(range, i);
    ParseKeyAt(range, j);
    if i < j {
      IndexStartMonotone(range, i, j);
    } else if j < i {
      IndexStartMonotone(range, j, i);
    }
  }

  /** The key of an invoice names its bucket: for supported buckets, the
      invoice's key is bucket i's key exactly when it falls in bucket i. */
  lemma BucketKeyMatches(range: TimeRange, t: int, i: int)
    requires Supported(range, t) && SupportedIndex(range, i)
    ensures BucketKey(range, t) == KeyAt(range, i) <==> BucketIndex(range, DayOf(t)) == i
  {
    BucketKeyIsKeyAt(range, t);
    if BucketKey(range, t) == KeyAt(range, i) {
      KeyAtInjective(range, BucketIndex(range, DayOf(t)), i);
    }
  }

  /** Stepping from the first midnight of a bucket reaches the first
      midnight of the next bucket. */
  lemma StepAt(range: TimeRange, i: int)
    ensures Step(range, Midnight(IndexStart(range, i))) == Midnight(IndexStart(range, i + 1))
  {
    var t := Midnight(IndexStart(range, i));
    var r := Step(range, t);
    InstantParts(r);
    if range == Monthly {
      var a := MonthOfIndex(i);
      CivilRoundTrip(a);
      var c' := CivilFromDays(DayOf(r));
      CivilFromDaysValid(DayOf(r));
      MonthOfIndexOf(c');
      assert c' == MonthOfIndex(i + 1);
    }
  }

  /** Lines 75-85: every step of the walk moves to a later instant. */
  lemma StepLater(range: TimeRange, t: int)
    ensures t < Step(range, t)
  {
    if range == Monthly {
      var r := AddMonths(t, 1);
      var d, d' := DayOf(t), DayOf(r);
      CivilFromDaysValid(d);
      CivilFromDaysValid(d');
      NextMonthLater(CivilFromDays(d), CivilFromDays(d'));
      InstantParts(t);
      InstantParts(r);
    }
  }

  /** Any day of the next month comes after any day of this one. */
  lemma NextMonthLater(c: Date, c': Date)
    requires ValidDate(c) && ValidDate(c') && MonthIndex(c') == MonthIndex(c) + 1
    ensures DaysFromCivil(c) < DaysFromCivil(c')
  {
    MonthBracket(c);
    MonthBracket(c');
  }

  /** The keys of two consecutive supported buckets read back as the first
      midnight of the earlier one and the step after it, which is later. */
  lemma KeyStep(range: TimeRange, i: int)
    requires SupportedIndex(range, i) && SupportedIndex(range, i + 1)
    ensures var t := Midnight(IndexStart(range, i));
            ParseIsoDate(KeyAt(range, i)) == Some(t)
            && ParseIsoDate(KeyAt(range, i + 1)) == Some(Step(range, t)) && t < Step(range, t)
  {
    ParseKeyAt(range, i);
    ParseKeyAt(range, i + 1);
    StepAt(range, i);
    IndexStartStep(range, i);
  }

  /** The key rebuilt in the walk equals the key produced during
      accumulation: reading an invoice's key with `new Date` gives the start
      of its bucket, and formatting that date with the walk's pattern gives
      the key back. */
  lemma WalkRebuildsKey(range: TimeRange, t: int)
    requires Supported(range, t)
    ensures ParseIsoDate(BucketKey(range, t)) == Some(BucketStart(range, t))
    ensures WalkKey(range, BucketStart(range, t)) == BucketKey(range, t)
  {
    BucketKeyIsKeyAt(range, t);
    ParseKeyAt(range, BucketIndex(range, DayOf(t)));
  }
}
