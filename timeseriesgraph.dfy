/** The revenue chart component (TimeSeriesGraph.tsx): processData, which
    turns the invoices into one revenue point per bucket without gaps, the
    x-axis labels, and the component state it keeps (the selected range and
    the chart data). */
module TimeSeriesGraph {
  import opened Wrappers
  import opened Seqs
  import opened Calendar
  import opened DateFormat
  import opened InvoiceTypes
  import opened Buckets
  import opened RevenueMap
  import opened RevenueSeries

  /** Line 58: `new Date(key).getTime()`, the rank the keys are sorted by.
      A key that does not read back (Invalid Date, NaN in the comparator)
      is given 0; see README. */
  function KeyTime(key: string): int {
    match ParseIsoDate(key)
    case Some(t) => t
    case None => 0
  }

  /** A supported bucket's key ranks as the bucket's first midnight. */
  lemma KeyTimeAt(range: TimeRange, i: int)
    requires SupportedIndex(range, i)
    ensures KeyTime(KeyAt(range, i)) == Midnight(IndexStart(range, i))
  {
    ParseKeyAt(range, i);
  }

  /** Supported buckets' keys rank in the order of the buckets. */
  lemma KeyTimeOrder(range: TimeRange, i: int, j: int)
    requires SupportedIndex(range, i) && SupportedIndex(range, j)
    ensures KeyTime(KeyAt(range, i)) <= KeyTime(KeyAt(range, j)) <==> i <= j
  {
    KeyTimeAt(range, i);
    KeyTimeAt(range, j);
    IndexStartOrder(range, i, j);
  }

  /** Lines 65-86: consecutive points of the chart are one step apart:
      the next point's date reads back as the step after this point's
      date, which is later, so the points come in strictly increasing
      order of their dates. */
  lemma SeriesSpacing(invs: seq<Invoice>, range: TimeRange, k: int)
    requires AllSupported(invs, range) && 0 <= k < |Series(invs, range)| - 1
    ensures var s := Series(invs, range);
            ParseIsoDate(s[k + 1].date) == Some(Step(range, KeyTime(s[k].date)))
            && KeyTime(s[k].date) < KeyTime(s[k + 1].date)
  {
    var es, s := Entries(invs, range), Series(invs, range);
    var i := SeriesNeighbours(es, range, k);
    SeriesWindow(invs, range);
    assert SupportedIndex(range, i) && SupportedIndex(range, i + 1);
    KeysStep(range, i);
  }

  /** The keys of two consecutive supported buckets rank as an instant and
      the step after it. */
  lemma KeysStep(range: TimeRange, i: int)
    requires SupportedIndex(range, i) && SupportedIndex(range, i + 1)
    ensures ParseIsoDate(KeyAt(range, i + 1)) == Some(Step(range, KeyTime(KeyAt(range, i))))
    ensures KeyTime(KeyAt(range, i)) < KeyTime(KeyAt(range, i + 1))
  {
    KeyStep(range, i);
    var t := Midnight(IndexStart(range, i));
    assert KeyTime(KeyAt(range, i)) == t;
    assert KeyTime(KeyAt(range, i + 1)) == Step(range, t);
  }

  /** Lines 30-55: the forEach loop that fills `revenueMap`; `order` lists
      the map's keys in insertion order, the order of `Array.from(revenueMap.entries())`. */
  method Accumulate(invoices: seq<Invoice>, range: TimeRange) returns (revenueMap: map<string, int>, order: seq<string>)
    ensures revenueMap == RevenueMapOf(Entries(invoices, range)) && order == KeyOrder(Entries(invoices, range))
  {
    ghost var es := Entries(invoices, range);
    revenueMap, order := map[], [];
    var i := 0;
    while i < |invoices|
      invariant 0 <= i <= |invoices|
      invariant revenueMap == RevenueMapOf(es[..i]) && order == KeyOrder(es[..i])
    {
      var invoice := invoices[i];
      var key := InvoiceKey(range, invoice);
      var revenue := Revenue(invoice);
      AccumulatePush(invoices, range, i, revenueMap, order, key, revenue);
      if key in revenueMap {
        revenueMap := revenueMap[key := Lookup(revenueMap, key) + revenue];
      } else {
        revenueMap := revenueMap[key := revenue];
        order := order + [key];
      }
      i := i + 1;
    }
    assert es[..i] == es;
  }

  /** One pass of the forEach body (lines 33-54) on invoice i: with the map
      and the key order of the invoices before it, adding its revenue to its
      key, or setting the key when it is new, gives those of the invoices up
      to it. */
  lemma AccumulatePush(invoices: seq<Invoice>, range: TimeRange, i: int, m: map<string, int>, order: seq<string>, key: string, revenue: int)
    requires 0 <= i < |invoices|
    requires m == RevenueMapOf(Entries(invoices, range)[..i]) && order == KeyOrder(Entries(invoices, range)[..i])
    requires key == InvoiceKey(range, invoices[i]) && revenue == Revenue(invoices[i])
    ensures RevenueMapOf(Entries(invoices, range)[..i + 1]) == (if key in m then m[key := Lookup(m, key) + revenue] else m[key := revenue])
    ensures KeyOrder(Entries(invoices, range)[..i + 1]) == (if key in m then order else order + [key])
  {
    var es := Entries(invoices, range);
    assert es[i].key == key && es[i].amount == revenue by {
      EntryFields(invoices, range, i);
    }
    RevenueMapPush(es, i, key, revenue);
  }

  /** The points the walk pushes for the buckets from lo to hi, looked up in `m`. */
  function Filled(m: map<string, int>, keyOf: int -> string, lo: int, hi: int): seq<Point>
    requires lo <= hi + 1
  {
    seq(hi - lo + 1, j => Point(keyOf(lo + j), Lookup(m, keyOf(lo + j))))
  }

  lemma FilledAt(m: map<string, int>, keyOf: int -> string, lo: int, hi: int, k: int)
    requires 0 <= k <= hi - lo
    ensures |Filled(m, keyOf, lo, hi)| == hi - lo + 1
    ensures Filled(m, keyOf, lo, hi)[k] == Point(keyOf(lo + k), Lookup(m, keyOf(lo + k)))
  {
  }

  /** The points of the buckets from lo to hi: bucket lo's point, then those of the buckets after it. */
  lemma FilledCons(m: map<string, int>, keyOf: int -> string, lo: int, hi: int)
    requires lo <= hi
    ensures Filled(m, keyOf, lo, hi) == [Point(keyOf(lo), Lookup(m, keyOf(lo)))] + Filled(m, keyOf, lo + 1, hi)
  {
    var l, r := Filled(m, keyOf, lo, hi), [Point(keyOf(lo), Lookup(m, keyOf(lo)))] + Filled(m, keyOf, lo + 1, hi);
    forall k | 0 <= k <= hi - lo
      ensures l[k] == r[k]
    {
      if k > 0 {
        assert r[k] == Filled(m, keyOf, lo + 1, hi)[k - 1];
        assert lo + 1 + (k - 1) == lo + k;
      }
    }
  }

  /** The walk runs from bucket lo to bucket hi: they are in order, supported,
      and the first and the last sorted keys are their keys. */
  predicate WalkBounds(range: TimeRange, firstDate: string, lastDate: string, lo: int, hi: int) {
    lo <= hi && SupportedIndex(range, lo) && SupportedIndex(range, hi)
    && firstDate == KeyAt(range, lo) && lastDate == KeyAt(range, hi)
  }

  /** Lines 61-66: the walk starts at `new Date(firstDate)` and ends at
      `new Date(lastDate)`. When the dates are those of buckets lo and hi it
      pushes the point of every bucket from lo to hi. A date that does not
      read back makes `currentDate <= endDate` false and the walk empty. */
  method FillGaps(revenueMap: map<string, int>, range: TimeRange, firstDate: string, lastDate: string,
                  ghost lo: int, ghost hi: int)
    returns (filledData: seq<Point>)
    ensures ParseIsoDate(firstDate).None? || ParseIsoDate(lastDate).None? ==> filledData == []
    ensures WalkBounds(range, firstDate, lastDate, lo, hi) ==> filledData == Filled(revenueMap, BucketKeys(range), lo, hi)
  {
    var start, end := ParseIsoDate(firstDate), ParseIsoDate(lastDate);
    if WalkBounds(range, firstDate, lastDate, lo, hi) {
      ParseKeyAt(range, lo);
      ParseKeyAt(range, hi);
    }
    if start.None? || end.None? {
      return [];
    }
    filledData := Walk(revenueMap, range, start.value, end.value);
    if WalkBounds(range, firstDate, lastDate, lo, hi) {
      WalkFromBucket(revenueMap, range, lo, hi);
    }
  }

  /** Every step moves to a later instant. */
  ghost predicate Ascending(step: int -> int) {
    forall t :: t < step(t)
  }

  /** The points pushed while the current instant is not past the end, each
      carrying the key formatted from the current instant, for any step that
      moves forward and any way of formatting keys. */
  function WalkFrom(m: map<string, int>, step: int -> int, key: int -> string, current: int, end: int): seq<Point>
    requires Ascending(step)
    decreases end - current
  {
    if current > end then []
    else [Point(key(current), Lookup(m, key(current)))] + WalkFrom(m, step, key, step(current), end)
  }

  /** Lines 75-85: the walk's step at a granularity. */
  function StepOf(range: TimeRange): int -> int {
    t => Step(range, t)
  }

  /** Line 69: the walk's key at a granularity. */
  function WalkKeyOf(range: TimeRange): int -> string {
    t => WalkKey(range, t)
  }

  /** Lines 75-85: every step of the walk moves to a later instant. */
  lemma StepAscending(range: TimeRange)
    ensures Ascending(StepOf(range))
  {
    forall t
      ensures t < Step(range, t)
    {
      StepLater(range, t);
    }
  }

  /** Lines 68-86: from currentDate to endDate, push the point of the key of
      the current date and step to the next bucket. */
  method Walk(revenueMap: map<string, int>, range: TimeRange, currentDate: int, endDate: int)
    returns (filledData: seq<Point>)
    ensures Ascending(StepOf(range))
    ensures filledData == WalkFrom(revenueMap, StepOf(range), WalkKeyOf(range), currentDate, endDate)
  {
    StepAscending(range);
    filledData := [];
    var current := currentDate;
    while current <= endDate
      invariant filledData + WalkFrom(revenueMap, StepOf(range), WalkKeyOf(range), current, endDate)
                == WalkFrom(revenueMap, StepOf(range), WalkKeyOf(range), currentDate, endDate)
      decreases endDate - current
    {
      var key := WalkKey(range, current);
      WalkPushAt(revenueMap, range, filledData, currentDate, current, endDate, key);
      filledData := filledData + [Point(key, Lookup(revenueMap, key))];
      current := Step(range, current);
    }
  }

  /** WalkPush at the granularity the walk steps by, with the key it formats. */
  lemma WalkPushAt(m: map<string, int>, range: TimeRange, pushed: seq<Point>, first: int, current: int, end: int, key: string)
    requires Ascending(StepOf(range)) && current <= end && key == WalkKey(range, current)
    requires pushed + WalkFrom(m, StepOf(range), WalkKeyOf(range), current, end)
             == WalkFrom(m, StepOf(range), WalkKeyOf(range), first, end)
    ensures current < Step(range, current)
    ensures (pushed + [Point(key, Lookup(m, key))]) + WalkFrom(m, StepOf(range), WalkKeyOf(range), Step(range, current), end)
            == WalkFrom(m, StepOf(range), WalkKeyOf(range), first, end)
  {
    WalkPush(m, StepOf(range), WalkKeyOf(range), pushed, first, current, end);
    assert WalkKeyOf(range)(current) == key && StepOf(range)(current) == Step(range, current);
  }

  /** One pass of the walk's loop body, for a current instant not past the
      end: pushing the current point and stepping keeps the points pushed so
      far followed by the rest of the walk equal to the whole walk. */
  lemma WalkPush(m: map<string, int>, step: int -> int, key: int -> string,
                 pushed: seq<Point>, first: int, current: int, end: int)
    requires Ascending(step) && current <= end
    requires pushed + WalkFrom(m, step, key, current, end) == WalkFrom(m, step, key, first, end)
    ensures current < step(current)
    ensures (pushed + [Point(key(current), Lookup(m, key(current)))]) + WalkFrom(m, step, key, step(current), end)
            == WalkFrom(m, step, key, first, end)
  {
    var p := Point(key(current), Lookup(m, key(current)));
    assert WalkFrom(m, step, key, current, end) == [p] + WalkFrom(m, step, key, step(current), end);
    assert (pushed + [p]) + WalkFrom(m, step, key, step(current), end) == pushed + ([p] + WalkFrom(m, step, key, step(current), end));
  }

  /** The instants the walk visits are given by `start`: stepping from
      start(i) reaches start(i + 1). */
  ghost predicate Stepping(step: int -> int, start: int -> int) {
    forall i :: step(start(i)) == start(i + 1)
  }

  /** The key formatted from start(i) is keyOf(i). */
  ghost predicate KeyedStarts(key: int -> string, start: int -> int, keyOf: int -> string) {
    forall i :: key(start(i)) == keyOf(i)
  }

  /** The visited instants come in the order of their numbers. */
  lemma {:induction false} StartsMonotone(step: int -> int, start: int -> int, i: int, j: int)
    requires Ascending(step) && Stepping(step, start) && i <= j
    ensures start(i) <= start(j)
    decreases j - i
  {
    if i < j {
      StartsMonotone(step, start, i, j - 1);
      assert step(start(j - 1)) == start(j);
    }
  }

  /** A walk from start(j) to start(hi) visits j, ..., hi and pushes, for
      each, its key and the revenue looked up under it. */
  lemma {:induction false} WalkFromStarts(m: map<string, int>, step: int -> int, key: int -> string,
                                          start: int -> int, keyOf: int -> string, j: int, hi: int)
    requires Ascending(step) && Stepping(step, start) && KeyedStarts(key, start, keyOf)
    requires j <= hi + 1
    ensures WalkFrom(m, step, key, start(j), start(hi)) == Filled(m, keyOf, j, hi)
    decreases hi - j
  {
    if j <= hi {
      StartsMonotone(step, start, j, hi);
      assert step(start(j)) == start(j + 1) && key(start(j)) == keyOf(j);
      WalkFromStarts(m, step, key, start, keyOf, j + 1, hi);
      FilledCons(m, keyOf, j, hi);
    } else {
      assert step(start(hi)) == start(j);
    }
  }

  /** The first midnight of each bucket. */
  function BucketStarts(range: TimeRange): int -> int {
    i => Midnight(IndexStart(range, i))
  }

  /** Stepping from the first midnight of a bucket reaches that of the next. */
  lemma BucketStepping(range: TimeRange)
    ensures Stepping(StepOf(range), BucketStarts(range))
  {
    forall i
      ensures Step(range, Midnight(IndexStart(range, i))) == Midnight(IndexStart(range, i + 1))
    {
      StepAt(range, i);
    }
  }

  /** The walk formats the first midnight of each bucket as the bucket's key. */
  lemma BucketWalkKeys(range: TimeRange)
    ensures KeyedStarts(WalkKeyOf(range), BucketStarts(range), BucketKeys(range))
  {
    forall i
      ensures WalkKey(range, Midnight(IndexStart(range, i))) == KeyAt(range, i)
    {
      KeyAtIsWalkKey(range, i);
    }
  }

  /** Lines 65-86: the walk from the first midnight of bucket lo to that of
      bucket hi visits the buckets from lo to hi, pushing each one's key and
      looked-up revenue. */
  lemma WalkFromBucket(m: map<string, int>, range: TimeRange, lo: int, hi: int)
    requires lo <= hi
    ensures Ascending(StepOf(range))
    ensures WalkFrom(m, StepOf(range), WalkKeyOf(range), Midnight(IndexStart(range, lo)), Midnight(IndexStart(range, hi)))
            == Filled(m, BucketKeys(range), lo, hi)
  {
    StepAscending(range);
    BucketStepping(range);
    BucketWalkKeys(range);
    WalkFromStarts(m, StepOf(range), WalkKeyOf(range), BucketStarts(range), BucketKeys(range), lo, hi);
  }

  /** The keys of the entries rank in the order of their buckets. */
  ghost predicate Ranked(es: seq<Entry>, rank: string -> int) {
    forall p, q :: 0 <= p < |es| && 0 <= q < |es| && es[p].bucket < es[q].bucket ==> rank(es[p].key) < rank(es[q].key)
  }

  /** Lines 57-63: when the rank of the keys grows with their buckets, the
      first and the last of the sorted keys are the keys of the earliest and
      the latest bucket. */
  lemma SortedEnds(es: seq<Entry>, keyOf: int -> string, rank: string -> int, sorted: seq<string>)
    requires es != [] && Keyed(keyOf, es) && Ranked(es, rank)
    requires SortedBy(sorted, rank) && forall key :: key in sorted <==> key in ObservedKeys(es)
    ensures sorted != []
    ensures sorted[0] == keyOf(MinBucket(es)) && Last(sorted) == keyOf(MaxBucket(es))
  {
    var first, last := BucketsAttained(es);
    var p := SortedFirstEntry(es, rank, sorted, first);
    var q := SortedLastEntry(es, rank, sorted, last);
  }

  /** The entry of the first sorted key is in the earliest bucket. */
  lemma SortedFirstEntry(es: seq<Entry>, rank: string -> int, sorted: seq<string>, first: int) returns (p: int)
    requires 0 <= first < |es| && forall r :: 0 <= r < |es| ==> es[first].bucket <= es[r].bucket
    requires Ranked(es, rank)
    requires SortedBy(sorted, rank) && forall key :: key in sorted <==> key in ObservedKeys(es)
    ensures sorted != [] && 0 <= p < |es| && es[p].key == sorted[0] && es[p].bucket == es[first].bucket
  {
    var x := SortedPosition(es, sorted, first);
    SortedBetween(sorted, rank, x);
    p := EntryOfKey(es, sorted, 0);
    assert rank(es[p].key) <= rank(es[first].key);
  }

  /** The entry of the last sorted key is in the latest bucket. */
  lemma SortedLastEntry(es: seq<Entry>, rank: string -> int, sorted: seq<string>, last: int) returns (q: int)
    requires 0 <= last < |es| && forall r :: 0 <= r < |es| ==> es[r].bucket <= es[last].bucket
    requires Ranked(es, rank)
    requires SortedBy(sorted, rank) && forall key :: key in sorted <==> key in ObservedKeys(es)
    ensures sorted != [] && 0 <= q < |es| && es[q].key == Last(sorted) && es[q].bucket == es[last].bucket
  {
    var y := SortedPosition(es, sorted, last);
    SortedBetween(sorted, rank, y);
    q := EntryOfKey(es, sorted, |sorted| - 1);
    assert rank(es[last].key) <= rank(es[q].key);
  }

  /** Where the key of entry p is among the sorted keys. */
  lemma SortedPosition(es: seq<Entry>, sorted: seq<string>, p: int) returns (a: int)
    requires 0 <= p < |es| && forall key :: key in sorted <==> key in ObservedKeys(es)
    ensures 0 <= a < |sorted| && sorted[a] == es[p].key
  {
    ObservedKeysMember(es, es[p].key);
    a :| 0 <= a < |sorted| && sorted[a] == es[p].key;
  }

  /** An entry whose key is sorted key a. */
  lemma EntryOfKey(es: seq<Entry>, sorted: seq<string>, a: int) returns (p: int)
    requires 0 <= a < |sorted| && forall key :: key in sorted <==> key in ObservedKeys(es)
    ensures 0 <= p < |es| && es[p].key == sorted[a]
  {
    ObservedKeysMember(es, sorted[a]);
    p :| 0 <= p < |es| && es[p].key == sorted[a];
  }

  /** Every element of a sorted sequence ranks between its first and its last. */
  lemma SortedBetween<T>(ys: seq<T>, rank: T -> int, a: int)
    requires SortedBy(ys, rank) && 0 <= a < |ys|
    ensures rank(ys[0]) <= rank(ys[a]) <= rank(ys[|ys| - 1])
  {
  }

  /** The sorted keys are exactly the keys of the entries. */
  lemma SortedKeys(m: map<string, int>, order: seq<string>, es: seq<Entry>, sorted: seq<string>)
    requires Accumulated(m, order, es) && multiset(sorted) == multiset(order)
    ensures forall key :: key in sorted <==> key in ObservedKeys(es)
    ensures sorted != [] <==> es != []
  {
    forall key
      ensures key in sorted <==> key in ObservedKeys(es)
    {
      assert key in sorted <==> key in multiset(order);
    }
    if es != [] {
      ObservedKeysMember(es, es[0].key);
    }
    if sorted != [] {
      ObservedKeysMember(es, sorted[0]);
    }
  }

  /** Line 60: some key is sorted exactly when some entry was accumulated. */
  lemma SortedNonEmpty(es: seq<Entry>, rank: string -> int)
    ensures SortBy(KeyOrder(es), rank) != [] <==> es != []
  {
    AccumulatedOf(es);
    SortByPermutation(KeyOrder(es), rank);
    SortedKeys(RevenueMapOf(es), KeyOrder(es), es, SortBy(KeyOrder(es), rank));
  }

  /** Looking the keys up in the accumulated map gives the series' points. */
  lemma FilledIsSeries(es: seq<Entry>, keyOf: int -> string, m: map<string, int>, order: seq<string>)
    requires Accumulated(m, order, es) && es != []
    ensures MinBucket(es) <= MaxBucket(es)
    ensures Filled(m, keyOf, MinBucket(es), MaxBucket(es)) == SeriesOf(es, keyOf)
  {
    var lo, hi := MinBucket(es), MaxBucket(es);
    var f, s := Filled(m, keyOf, lo, hi), SeriesOf(es, keyOf);
    assert |s| == hi - lo + 1 by {
      SeriesOfAt(es, keyOf, 0);
    }
    forall k | 0 <= k <= hi - lo
      ensures f[k] == s[k]
    {
      LookupRevenue(m, order, es, keyOf(lo + k));
      FilledPoint(es, keyOf, m, k);
    }
  }

  /** The point the walk pushes for the k-th bucket is the series' k-th point
      once the map holds the bucket key's revenue. */
  lemma FilledPoint(es: seq<Entry>, keyOf: int -> string, m: map<string, int>, k: int)
    requires es != [] && 0 <= k <= MaxBucket(es) - MinBucket(es)
    requires Lookup(m, keyOf(MinBucket(es) + k)) == KeyRevenue(es, keyOf(MinBucket(es) + k))
    ensures Filled(m, keyOf, MinBucket(es), MaxBucket(es))[k] == SeriesOf(es, keyOf)[k]
  {
    FilledAt(m, keyOf, MinBucket(es), MaxBucket(es), k);
    SeriesOfAt(es, keyOf, k);
  }

  /** Lines 57-87 for any keyed entries whose keys rank in the order of
      their buckets: the sorted keys start with the earliest bucket's key and
      end with the latest's, and the walk between them, looked up in the
      accumulated map, pushes the series. */
  lemma SortedSeries(es: seq<Entry>, keyOf: int -> string, rank: string -> int)
    requires es != [] && Keyed(keyOf, es) && Ranked(es, rank)
    ensures var sorted := SortBy(KeyOrder(es), rank);
            sorted != [] && sorted[0] == keyOf(MinBucket(es)) && Last(sorted) == keyOf(MaxBucket(es))
    ensures MinBucket(es) <= MaxBucket(es)
    ensures Filled(RevenueMapOf(es), keyOf, MinBucket(es), MaxBucket(es)) == SeriesOf(es, keyOf)
  {
    var m, order := RevenueMapOf(es), KeyOrder(es);
    var sorted := SortBy(order, rank);
    AccumulatedOf(es);
    SortBySorted(order, rank);
    SortByPermutation(order, rank);
    SortedKeys(m, order, es, sorted);
    SortedEnds(es, keyOf, rank, sorted);
    FilledIsSeries(es, keyOf, m, order);
  }

  /** The keys of supported invoices rank in the order of their buckets. */
  lemma EntriesRanked(invoices: seq<Invoice>, range: TimeRange)
    requires AllSupported(invoices, range)
    ensures Ranked(Entries(invoices, range), KeyTime)
  {
    var es := Entries(invoices, range);
    EntriesKeyed(invoices, range);
    EntriesSupported(invoices, range);
    forall p, q | 0 <= p < |es| && 0 <= q < |es| && es[p].bucket < es[q].bucket
      ensures KeyTime(es[p].key) < KeyTime(es[q].key)
    {
      KeyTimeOrder(range, es[q].bucket, es[p].bucket);
    }
  }

  /** The earliest and the latest bucket of supported invoices are supported. */
  lemma EndsSupported(invoices: seq<Invoice>, range: TimeRange)
    requires AllSupported(invoices, range) && invoices != []
    ensures var es := Entries(invoices, range);
            es != [] && SupportedIndex(range, MinBucket(es)) && SupportedIndex(range, MaxBucket(es))
  {
    var es := Entries(invoices, range);
    EntriesSupported(invoices, range);
    var first, last := BucketsAttained(es);
  }

  /** Lines 57-87: some key is sorted exactly when there are invoices, and
      for supported invoices the walk runs from the earliest bucket to the
      latest and pushes the points of the series. */
  lemma ProcessDataSeries(invoices: seq<Invoice>, range: TimeRange)
    ensures SortBy(KeyOrder(Entries(invoices, range)), KeyTime) != [] <==> invoices != []
    ensures invoices == [] ==> Series(invoices, range) == []
    ensures AllSupported(invoices, range) && invoices != [] ==>
              var es, sorted := Entries(invoices, range), SortBy(KeyOrder(Entries(invoices, range)), KeyTime);
              WalkBounds(range, sorted[0], Last(sorted), MinBucket(es), MaxBucket(es))
              && Filled(RevenueMapOf(es), BucketKeys(range), MinBucket(es), MaxBucket(es)) == Series(invoices, range)
  {
    var es := Entries(invoices, range);
    SortedNonEmpty(es, KeyTime);
    if AllSupported(invoices, range) && invoices != [] {
      EntriesKeyed(invoices, range);
      EntriesRanked(invoices, range);
      EndsSupported(invoices, range);
      SortedSeries(es, BucketKeys(range), KeyTime);
    }
  }

  /** processData (lines 27-90). For invoices whose buckets are supported it
      returns the series; for no invoices it returns no points. */
  method ProcessData(invoices: seq<Invoice>, range: TimeRange) returns (filledData: seq<Point>)
    ensures AllSupported(invoices, range) ==> filledData == Series(invoices, range)
    ensures invoices == [] ==> filledData == []
  {
    var revenueMap, order := Accumulate(invoices, range);
    var sortedData := SortBy(order, KeyTime);
    ProcessDataSeries(invoices, range);
    filledData := [];
    if |sortedData| > 0 {
      ghost var es := Entries(invoices, range);
      var firstDate := sortedData[0];
      var lastDate := sortedData[|sortedData| - 1];
      assert lastDate == Last(sortedData);
      filledData := FillGaps(revenueMap, range, firstDate, lastDate, MinBucket(es), MaxBucket(es));
    }
  }

  /** Lines 92-101: the x-axis label of a tick, its key read as a date.
      date-fns `format` throws on an Invalid Date, so a tick that does not
      read back has no label (None). */
  function FormatXAxis(range: TimeRange, tickItem: string): (r: Option<string>)
    ensures r.Some? <==> ParseIsoDate(tickItem).Some?
  {
    match ParseIsoDate(tickItem)
    case None => None
    case Some(t) =>
      Some(match range
           case Daily => FormatMonDD(t)
           case Weekly => "Week of " + FormatMonDD(t)
           case Monthly => FormatMonYYYY(t))
  }

  /** The label of a point of the chart is the first midnight of its bucket
      formatted as 'MMM dd', 'Week of MMM dd' or 'MMM yyyy'. */
  lemma FormatXAxisAt(range: TimeRange, i: int)
    requires SupportedIndex(range, i)
    ensures var t := Midnight(IndexStart(range, i));
            FormatXAxis(range, KeyAt(range, i)) == Some(match range
              case Daily => FormatMonDD(t)
              case Weekly => "Week of " + FormatMonDD(t)
              case Monthly => FormatMonYYYY(t))
  {
    ParseKeyAt(range, i);
  }

  /** The component's state: the selected range and the data on the chart. */
  class TimeSeriesView {
    var timeRange: TimeRange
    var chartData: seq<Point>

    /** Lines 13-14: range 'daily', no data. */
    constructor()
      ensures timeRange == Daily && chartData == []
    {
      timeRange := Daily;
      chartData := [];
    }

    /** Lines 20-25: the effect that recomputes the chart when the invoices
        or the range change; with no invoices the old data stays. */
    method Refresh(allInvoices: seq<Invoice>)
      modifies this
      ensures timeRange == old(timeRange)
      ensures |allInvoices| == 0 ==> chartData == old(chartData)
      ensures |allInvoices| > 0 && AllSupported(allInvoices, timeRange) ==> chartData == Series(allInvoices, timeRange)
    {
      if |allInvoices| > 0 {
        var data := ProcessData(allInvoices, timeRange);
        chartData := data;
      }
    }

    /** Lines 108-125: a range button sets the range, which runs the effect. */
    method SelectRange(range: TimeRange, allInvoices: seq<Invoice>)
      modifies this
      ensures timeRange == range
      ensures |allInvoices| == 0 ==> chartData == old(chartData)
      ensures |allInvoices| > 0 && AllSupported(allInvoices, range) ==> chartData == Series(allInvoices, range)
    {
      timeRange := range;
      Refresh(allInvoices);
    }
  }
}
