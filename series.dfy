/** The revenue series processData returns (TimeSeriesGraph.tsx:27-90),
    stated without its loops: one point per bucket from the earliest bucket
    that holds an entry to the latest, each carrying the revenue accumulated
    under its key.

    The series is first defined and studied for any list of entries and any
    numbering of buckets by keys (SeriesOf); the chart's series (Series) is
    that of the invoices' entries with the bucket keys of the selected
    range, and SeriesWindow shows that those meet the hypotheses of the
    general lemmas. */
module RevenueSeries {
  import opened Wrappers
  import opened Seqs
  import opened Calendar
  import opened DateFormat
  import opened InvoiceTypes
  import opened Buckets
  import opened RevenueMap

  /** One element of `filledData`: `{date, revenue}`. */
  datatype Point = Point(date: string, revenue: int)

  /** The earliest bucket among the entries. */
  function MinBucket(es: seq<Entry>): (m: int)
    requires es != []
    ensures forall p :: 0 <= p < |es| ==> m <= es[p].bucket
  {
    if |es| == 1 then es[0].bucket
    else
      var m := MinBucket(es[..|es| - 1]);
      if es[|es| - 1].bucket < m then es[|es| - 1].bucket else m
  }

  /** The latest bucket among the entries. */
  function MaxBucket(es: seq<Entry>): (m: int)
    requires es != []
    ensures forall p :: 0 <= p < |es| ==> es[p].bucket <= m
  {
    if |es| == 1 then es[0].bucket
    else
      var m := MaxBucket(es[..|es| - 1]);
      if es[|es| - 1].bucket > m then es[|es| - 1].bucket else m
  }

  /** The earliest and the latest bucket are those of some entries. */
  lemma {:induction false} BucketsAttained(es: seq<Entry>) returns (first: nat, last: nat)
    requires es != []
    ensures first < |es| && es[first].bucket == MinBucket(es)
    ensures last < |es| && es[last].bucket == MaxBucket(es)
    decreases |es|
  {
    var n := |es| - 1;
    if n == 0 {
      first, last := 0, 0;
    } else {
      first, last := BucketsAttained(es[..n]);
      if es[n].bucket < MinBucket(es[..n]) {
        first := n;
      }
      if es[n].bucket > MaxBucket(es[..n]) {
        last := n;
      }
    }
  }

  /** The earliest and latest buckets depend only on which entries there are. */
  lemma MinMaxPermutation(a: seq<Entry>, b: seq<Entry>)
    requires multiset(a) == multiset(b) && a != []
    ensures b != [] && MinBucket(a) == MinBucket(b) && MaxBucket(a) == MaxBucket(b)
  {
    assert |b| == |multiset(b)| == |a|;
    var p, p' := BucketsAttained(a);
    var q, q' := BucketsAttained(b);
    assert a[p] in multiset(b);
    assert b[q] in multiset(a);
    assert a[p'] in multiset(b);
    assert b[q'] in multiset(a);
  }

  /** The point of bucket i: its key and the revenue under that key (lines 69-73). */
  function PointAt(es: seq<Entry>, keyOf: int -> string, i: int): Point {
    Point(keyOf(i), KeyRevenue(es, keyOf(i)))
  }

  /** The points of the n buckets from bucket lo on. */
  function Points(es: seq<Entry>, keyOf: int -> string, lo: int, n: nat): seq<Point> {
    seq(n, j => PointAt(es, keyOf, lo + j))
  }

  /** Line 72: one more step of the walk pushes the point of the next bucket. */
  lemma PointsAt(es: seq<Entry>, keyOf: int -> string, lo: int, n: nat, k: int)
    requires 0 <= k < n
    ensures |Points(es, keyOf, lo, n)| == n && Points(es, keyOf, lo, n)[k] == PointAt(es, keyOf, lo + k)
  {
  }

  lemma PointsSnoc(es: seq<Entry>, keyOf: int -> string, lo: int, n: nat)
    ensures Points(es, keyOf, lo, n + 1) == Points(es, keyOf, lo, n) + [PointAt(es, keyOf, lo + n)]
  {
  }

  /** The series of a list of entries: the walk from the earliest bucket to the latest. */
  function SeriesOf(es: seq<Entry>, keyOf: int -> string): seq<Point> {
    if es == [] then [] else Points(es, keyOf, MinBucket(es), MaxBucket(es) - MinBucket(es) + 1)
  }

  /** Every entry carries its bucket's key. */
  predicate Keyed(keyOf: int -> string, es: seq<Entry>) {
    forall p :: 0 <= p < |es| ==> es[p].key == keyOf(es[p].bucket)
  }

  /** The n buckets from lo on have distinct keys. */
  predicate Injective(keyOf: int -> string, lo: int, n: nat) {
    forall i, j :: lo <= i < lo + n && lo <= j < lo + n && keyOf(i) == keyOf(j) ==> i == j
  }

  /** Every entry's bucket lies among the n buckets from lo on. */
  predicate Within(es: seq<Entry>, lo: int, n: nat) {
    forall p :: 0 <= p < |es| ==> lo <= es[p].bucket < lo + n
  }

  /** The entries carry their buckets' keys, and the buckets from the
      earliest to the latest have distinct keys. */
  predicate WellKeyed(es: seq<Entry>, keyOf: int -> string) {
    es != [] ==> Keyed(keyOf, es) && Injective(keyOf, MinBucket(es), MaxBucket(es) - MinBucket(es) + 1)
  }

  /** The sum of the revenues of a series. */
  function SumRevenue(ps: seq<Point>): int {
    if ps == [] then 0 else SumRevenue(ps[..|ps| - 1]) + ps[|ps| - 1].revenue
  }

  // ---- The series of any keyed list of entries ----

  /** Lines 60-61, 89: the series is empty exactly when there are no entries. */
  lemma SeriesOfEmpty(es: seq<Entry>, keyOf: int -> string)
    ensures SeriesOf(es, keyOf) == [] <==> es == []
  {
  }

  /** Point k is the point of the k-th bucket after the earliest, and there
      is one point per bucket up to the latest. */
  lemma SeriesOfAt(es: seq<Entry>, keyOf: int -> string, k: int)
    requires 0 <= k < |SeriesOf(es, keyOf)|
    ensures es != [] && |SeriesOf(es, keyOf)| == MaxBucket(es) - MinBucket(es) + 1
    ensures SeriesOf(es, keyOf)[k] == PointAt(es, keyOf, MinBucket(es) + k)
  {
    assert es != [];
    PointsAt(es, keyOf, MinBucket(es), MaxBucket(es) - MinBucket(es) + 1, k);
  }

  /** Lines 57-68: the first point is the earliest bucket's and the last
      point the latest bucket's. */
  lemma SeriesOfEnds(es: seq<Entry>, keyOf: int -> string)
    requires es != []
    ensures var s := SeriesOf(es, keyOf);
            |s| == MaxBucket(es) - MinBucket(es) + 1
            && s[0].date == keyOf(MinBucket(es)) && Last(s).date == keyOf(MaxBucket(es))
  {
    var s, lo, hi := SeriesOf(es, keyOf), MinBucket(es), MaxBucket(es);
    assert |s| == hi - lo + 1;
    SeriesOfAt(es, keyOf, 0);
    SeriesOfAt(es, keyOf, |s| - 1);
    assert s[0] == PointAt(es, keyOf, lo);
    assert s[|s| - 1] == PointAt(es, keyOf, hi);
  }

  /** The entries of the earliest and the latest bucket: every entry's
      bucket lies between theirs, the series has one point per bucket from
      the one to the other, and with keyed entries it starts with the
      first's key and ends with the last's. */
  lemma SeriesOfBounds(es: seq<Entry>, keyOf: int -> string) returns (first: nat, last: nat)
    requires es != []
    ensures first < |es| && last < |es|
    ensures forall r :: 0 <= r < |es| ==> es[first].bucket <= es[r].bucket <= es[last].bucket
    ensures var s := SeriesOf(es, keyOf);
            |s| == es[last].bucket - es[first].bucket + 1
            && (Keyed(keyOf, es) ==> s[0].date == es[first].key && Last(s).date == es[last].key)
  {
    first, last := BucketsAttained(es);
    SeriesOfEnds(es, keyOf);
  }

  /** With distinct keys in the window, the dates of the points are pairwise distinct. */
  lemma SeriesOfDistinct(es: seq<Entry>, keyOf: int -> string, k1: int, k2: int)
    requires WellKeyed(es, keyOf)
    requires 0 <= k1 < |SeriesOf(es, keyOf)| && 0 <= k2 < |SeriesOf(es, keyOf)| && k1 != k2
    ensures SeriesOf(es, keyOf)[k1].date != SeriesOf(es, keyOf)[k2].date
  {
    SeriesOfAt(es, keyOf, k1);
    SeriesOfAt(es, keyOf, k2);
  }

  /** Lines 70-73: each point's revenue is the revenue accumulated under its
      date, and 0 for a date no entry has. */
  lemma SeriesOfRevenue(es: seq<Entry>, keyOf: int -> string, k: int)
    requires 0 <= k < |SeriesOf(es, keyOf)|
    ensures var s := SeriesOf(es, keyOf);
            s[k].revenue == KeyRevenue(es, s[k].date)
            && (s[k].date !in ObservedKeys(es) ==> s[k].revenue == 0)
  {
    var s := SeriesOf(es, keyOf);
    SeriesOfAt(es, keyOf, k);
    if s[k].date !in ObservedKeys(es) {
      KeyRevenueUnobserved(es, s[k].date);
    }
  }

  /** Every entry's key is the date of exactly one point: the point k of its
      bucket, k buckets after the earliest. */
  lemma SeriesOfCovers(es: seq<Entry>, keyOf: int -> string, p: int, k: int, key: string)
    requires WellKeyed(es, keyOf) && 0 <= p < |es|
    requires k == es[p].bucket - MinBucket(es) && key == es[p].key
    ensures 0 <= k < |SeriesOf(es, keyOf)| && SeriesOf(es, keyOf)[k].date == key
    ensures forall k' :: 0 <= k' < |SeriesOf(es, keyOf)| && SeriesOf(es, keyOf)[k'].date == key ==> k' == k
  {
    var s := SeriesOf(es, keyOf);
    SeriesOfAt(es, keyOf, k);
    forall k' | 0 <= k' < |s| && s[k'].date == key
      ensures k' == k
    {
      if k' != k {
        SeriesOfDistinct(es, keyOf, k, k');
      }
    }
  }

  /** Adding an entry whose bucket lies in a window with distinct keys adds
      its amount to the total of the first n points when its bucket is
      among them, and nothing otherwise. */
  lemma {:induction false} PointsSumSnoc(es: seq<Entry>, e: Entry, keyOf: int -> string, lo: int, n: nat, size: nat)
    requires n <= size && Injective(keyOf, lo, size)
    requires lo <= e.bucket < lo + size && e.key == keyOf(e.bucket)
    ensures SumRevenue(Points(es + [e], keyOf, lo, n))
            == SumRevenue(Points(es, keyOf, lo, n)) + if e.bucket < lo + n then e.amount else 0
    decreases n
  {
    if n > 0 {
      PointsSumSnoc(es, e, keyOf, lo, n - 1, size);
      var i := lo + n - 1;
      PointsSnoc(es + [e], keyOf, lo, n - 1);
      PointsSnoc(es, keyOf, lo, n - 1);
      KeyRevenueSnoc(es, e, keyOf(i));
      assert e.key == keyOf(i) <==> e.bucket == i;
    }
  }

  /** With no entries every point has revenue 0. */
  lemma {:induction false} PointsSumEmpty(keyOf: int -> string, lo: int, n: nat)
    ensures SumRevenue(Points([], keyOf, lo, n)) == 0
    decreases n
  {
    if n > 0 {
      PointsSumEmpty(keyOf, lo, n - 1);
      PointsSnoc([], keyOf, lo, n - 1);
    }
  }

  /** A window with distinct keys that covers every entry's bucket carries
      all their revenue. */
  lemma {:induction false} PointsSumTotal(es: seq<Entry>, keyOf: int -> string, lo: int, n: nat)
    requires Keyed(keyOf, es) && Injective(keyOf, lo, n) && Within(es, lo, n)
    ensures SumRevenue(Points(es, keyOf, lo, n)) == TotalAmount(es)
    decreases |es|
  {
    if es == [] {
      PointsSumEmpty(keyOf, lo, n);
    } else {
      var m := |es| - 1;
      var e := es[m];
      assert es == es[..m] + [e];
      PointsSumTotal(es[..m], keyOf, lo, n);
      PointsSumSnoc(es[..m], e, keyOf, lo, n, n);
    }
  }

  /** Lines 50-54, 65-86: no revenue is lost or counted twice. */
  lemma SeriesOfConservation(es: seq<Entry>, keyOf: int -> string)
    requires WellKeyed(es, keyOf)
    ensures SumRevenue(SeriesOf(es, keyOf)) == TotalAmount(es)
  {
    if es != [] {
      PointsSumTotal(es, keyOf, MinBucket(es), MaxBucket(es) - MinBucket(es) + 1);
    }
  }

  /** Reordering the entries leaves each point unchanged. */
  lemma SeriesOfPermutationAt(a: seq<Entry>, b: seq<Entry>, keyOf: int -> string, k: int)
    requires multiset(a) == multiset(b) && 0 <= k < |SeriesOf(a, keyOf)|
    ensures k < |SeriesOf(b, keyOf)| && SeriesOf(a, keyOf)[k] == SeriesOf(b, keyOf)[k]
  {
    MinMaxPermutation(a, b);
    var i := MinBucket(a) + k;
    SeriesOfAt(a, keyOf, k);
    SeriesOfAt(b, keyOf, k);
    KeyRevenuePermutation(a, b, keyOf(i));
    assert PointAt(a, keyOf, i) == PointAt(b, keyOf, i);
  }

  /** The series does not depend on the order of the entries. */
  lemma SeriesOfPermutation(a: seq<Entry>, b: seq<Entry>, keyOf: int -> string)
    requires multiset(a) == multiset(b)
    ensures SeriesOf(a, keyOf) == SeriesOf(b, keyOf)
  {
    if a != [] {
      MinMaxPermutation(a, b);
      var sa, sb := SeriesOf(a, keyOf), SeriesOf(b, keyOf);
      assert |sa| == |sb|;
      forall k | 0 <= k < |sa|
        ensures sa[k] == sb[k]
      {
        SeriesOfPermutationAt(a, b, keyOf, k);
      }
    } else {
      assert |b| == |multiset(b)| == 0;
    }
  }

  // ---- The chart's series ----

  /** The key of each bucket at the given granularity. */
  function BucketKeys(range: TimeRange): int -> string {
    i => KeyAt(range, i)
  }

  /** processData(invoices, range). */
  function Series(invs: seq<Invoice>, range: TimeRange): seq<Point> {
    SeriesOf(Entries(invs, range), BucketKeys(range))
  }

  /** A point of the chart carries a bucket's key and the revenue accumulated under it. */
  lemma BucketPoint(es: seq<Entry>, range: TimeRange, i: int)
    ensures PointAt(es, BucketKeys(range), i) == Point(KeyAt(range, i), KeyRevenue(es, KeyAt(range, i)))
  {
  }

  /** Every invoice's entry carries its bucket's key. */
  lemma EntriesKeyed(invs: seq<Invoice>, range: TimeRange)
    ensures Keyed(BucketKeys(range), Entries(invs, range))
  {
    var es := Entries(invs, range);
    forall p | 0 <= p < |es|
      ensures es[p].key == KeyAt(range, es[p].bucket)
    {
      EntriesAt(invs, range, p);
      BucketKeyIsKeyAt(range, invs[p].createdAt);
    }
  }

  /** Every entry of supported invoices lies in a supported bucket. */
  lemma EntriesSupported(invs: seq<Invoice>, range: TimeRange)
    requires AllSupported(invs, range)
    ensures var es := Entries(invs, range);
            forall p :: 0 <= p < |es| ==> SupportedIndex(range, es[p].bucket)
  {
    var es := Entries(invs, range);
    forall p | 0 <= p < |es|
      ensures SupportedIndex(range, es[p].bucket)
    {
      EntriesAt(invs, range, p);
    }
  }

  /** Every bucket of the n from lo on is supported. */
  predicate WindowSupported(range: TimeRange, lo: int, n: nat) {
    forall i :: lo <= i < lo + n ==> SupportedIndex(range, i)
  }

  /** Supported buckets have distinct keys. */
  lemma BucketKeysInjective(range: TimeRange, lo: int, n: nat)
    requires WindowSupported(range, lo, n)
    ensures Injective(BucketKeys(range), lo, n)
  {
    forall i, j | lo <= i < lo + n && lo <= j < lo + n && KeyAt(range, i) == KeyAt(range, j)
      ensures i == j
    {
      KeyAtInjective(range, i, j);
    }
  }

  /** Buckets between the earliest and the latest supported bucket are supported. */
  lemma SpanSupported(es: seq<Entry>, range: TimeRange)
    requires es != [] && forall p :: 0 <= p < |es| ==> SupportedIndex(range, es[p].bucket)
    ensures WindowSupported(range, MinBucket(es), MaxBucket(es) - MinBucket(es) + 1)
  {
    var lo, hi := MinBucket(es), MaxBucket(es);
    var p, q := BucketsAttained(es);
    forall i | lo <= i <= hi
      ensures SupportedIndex(range, i)
    {
      SupportedBetween(range, lo, i, hi);
    }
  }

  /** The invoices' entries and the bucket keys meet the hypotheses of the
      lemmas above, and every bucket of the chart is supported. */
  lemma SeriesWindow(invs: seq<Invoice>, range: TimeRange)
    requires AllSupported(invs, range)
    ensures var es := Entries(invs, range);
            WellKeyed(es, BucketKeys(range))
            && (es != [] ==> WindowSupported(range, MinBucket(es), MaxBucket(es) - MinBucket(es) + 1))
  {
    var es := Entries(invs, range);
    EntriesKeyed(invs, range);
    EntriesSupported(invs, range);
    if es != [] {
      SpanSupported(es, range);
      BucketKeysInjective(range, MinBucket(es), MaxBucket(es) - MinBucket(es) + 1);
    }
  }

  /** The invoices' entries carry their buckets' keys, which are distinct
      from the earliest bucket to the latest. */
  lemma SeriesKeyed(invs: seq<Invoice>, range: TimeRange)
    requires AllSupported(invs, range)
    ensures WellKeyed(Entries(invs, range), BucketKeys(range))
  {
    SeriesWindow(invs, range);
  }

  /** Lines 50-54, 65-86: the points carry all the invoices' revenue, once. */
  lemma SeriesConservation(invs: seq<Invoice>, range: TimeRange)
    requires AllSupported(invs, range)
    ensures SumRevenue(Series(invs, range)) == TotalRevenue(invs)
  {
    SeriesWindow(invs, range);
    SeriesOfConservation(Entries(invs, range), BucketKeys(range));
    TotalAmountOfEntries(invs, range);
  }

  /** The chart does not depend on the order in which the invoices arrive. */
  lemma SeriesPermutation(a: seq<Invoice>, b: seq<Invoice>, range: TimeRange)
    requires multiset(a) == multiset(b)
    ensures Series(a, range) == Series(b, range)
  {
    EntriesPermutation(a, b, range);
    SeriesOfPermutation(Entries(a, range), Entries(b, range), BucketKeys(range));
  }

  /** Point k is dated `key`, and no other point is. */
  predicate OnlyDatedAt(s: seq<Point>, k: int, key: string) {
    0 <= k < |s| && s[k].date == key && forall k' :: 0 <= k' < |s| && s[k'].date == key ==> k' == k
  }

  /** Every invoice's key is the date of exactly one point: the point of its bucket. */
  lemma SeriesCovers(invs: seq<Invoice>, range: TimeRange, p: int)
    requires AllSupported(invs, range) && 0 <= p < |invs|
    ensures OnlyDatedAt(Series(invs, range), IndexOf(range, invs[p]) - MinBucket(Entries(invs, range)), InvoiceKey(range, invs[p]))
  {
    SeriesCoversEntry(invs, range, p, IndexOf(range, invs[p]) - MinBucket(Entries(invs, range)), InvoiceKey(range, invs[p]));
  }

  /** Entry p's key is the date of exactly one point, the k-th, k being its
      bucket counted from the earliest. */
  lemma SeriesCoversEntry(invs: seq<Invoice>, range: TimeRange, p: int, k: int, key: string)
    requires AllSupported(invs, range) && 0 <= p < |invs|
    requires k == IndexOf(range, invs[p]) - MinBucket(Entries(invs, range)) && key == InvoiceKey(range, invs[p])
    ensures OnlyDatedAt(Series(invs, range), k, key)
  {
    var es := Entries(invs, range);
    EntryFields(invs, range, p);
    SeriesKeyed(invs, range);
    SeriesOfCovers(es, BucketKeys(range), p, k, key);
  }

  /** Lines 65-73: point k carries the key of the k-th bucket after the earliest. */
  lemma BucketSeriesAt(es: seq<Entry>, range: TimeRange, k: int)
    requires 0 <= k < |SeriesOf(es, BucketKeys(range))|
    ensures es != [] && SeriesOf(es, BucketKeys(range))[k].date == KeyAt(range, MinBucket(es) + k)
  {
    SeriesOfEmpty(es, BucketKeys(range));
    SeriesOfAtBucket(es, BucketKeys(range), k, MinBucket(es) + k);
    BucketPoint(es, range, MinBucket(es) + k);
  }

  /** Points k and k + 1 carry the keys of two consecutive buckets of the
      window from the earliest bucket to the latest. */
  lemma SeriesNeighbours(es: seq<Entry>, range: TimeRange, k: int) returns (i: int)
    requires 0 <= k < |SeriesOf(es, BucketKeys(range))| - 1
    ensures var s := SeriesOf(es, BucketKeys(range));
            es != [] && MinBucket(es) <= i && i + 1 <= MaxBucket(es)
            && s[k].date == KeyAt(range, i) && s[k + 1].date == KeyAt(range, i + 1)
  {
    SeriesOfEmpty(es, BucketKeys(range));
    i := MinBucket(es) + k;
    SeriesOfAtBucket(es, BucketKeys(range), k, i);
    SeriesOfAtBucket(es, BucketKeys(range), k + 1, i + 1);
    BucketPoint(es, range, i);
    BucketPoint(es, range, i + 1);
  }

  /** Point k is the point of bucket i, the k-th after the earliest. */
  lemma SeriesOfAtBucket(es: seq<Entry>, keyOf: int -> string, k: int, i: int)
    requires 0 <= k < |SeriesOf(es, keyOf)| && es != [] && i == MinBucket(es) + k
    ensures |SeriesOf(es, keyOf)| == MaxBucket(es) - MinBucket(es) + 1
    ensures SeriesOf(es, keyOf)[k] == PointAt(es, keyOf, i)
  {
    SeriesOfAt(es, keyOf, k);
  }

  /** Daily: one point per calendar day from the earliest invoice's day to the latest's. */
  lemma SeriesDailyLength(invs: seq<Invoice>) returns (first: nat, last: nat)
    requires invs != []
    ensures first < |invs| && last < |invs|
    ensures forall r :: 0 <= r < |invs| ==>
              DayOf(invs[first].createdAt) <= DayOf(invs[r].createdAt) <= DayOf(invs[last].createdAt)
    ensures |Series(invs, Daily)| == DayOf(invs[last].createdAt) - DayOf(invs[first].createdAt) + 1
  {
    var es := Entries(invs, Daily);
    first, last := SeriesOfBounds(es, BucketKeys(Daily));
    forall r | 0 <= r < |invs|
      ensures es[r].bucket == DayOf(invs[r].createdAt)
    {
      EntryFields(invs, Daily, r);
    }
  }

  /** For the same invoices, the weekly and the monthly chart have no more
      points than the daily one. */
  lemma SeriesCoarser(invs: seq<Invoice>, range: TimeRange)
    requires invs != []
    ensures |Series(invs, range)| <= |Series(invs, Daily)|
  {
    var first, last := SeriesDailyLength(invs);
    var es := Entries(invs, range);
    var lo, hi := SeriesOfBounds(es, BucketKeys(range));
    EntryFields(invs, range, lo);
    EntryFields(invs, range, hi);
    EntryFields(invs, range, first);
    EntryFields(invs, range, last);
    var d1, d2 := DayOf(invs[first].createdAt), DayOf(invs[last].createdAt);
    BucketIndexMonotone(range, d1, DayOf(invs[lo].createdAt));
    BucketIndexMonotone(range, DayOf(invs[hi].createdAt), d2);
    BucketIndexGap(range, d1, d2);
  }

  /** The entries of the earliest and the latest bucket give the series' ends. */
  lemma EntriesEnds(invs: seq<Invoice>, range: TimeRange) returns (first: nat, last: nat)
    requires invs != []
    ensures var es, s := Entries(invs, range), Series(invs, range);
            first < |es| && last < |es| && s != []
            && s[0].date == es[first].key && Last(s).date == es[last].key
            && forall r :: 0 <= r < |es| ==> es[first].bucket <= es[r].bucket <= es[last].bucket
  {
    EntriesKeyed(invs, range);
    first, last := SeriesOfBounds(Entries(invs, range), BucketKeys(range));
  }

  /** Lines 57-68: the first point carries the earliest invoice's key and the
      last point the latest invoice's; every invoice's bucket lies between. */
  lemma SeriesEnds(invs: seq<Invoice>, range: TimeRange) returns (first: nat, last: nat)
    requires invs != []
    ensures first < |invs| && last < |invs|
    ensures var s := Series(invs, range);
            s != [] && s[0].date == InvoiceKey(range, invs[first])
            && Last(s).date == InvoiceKey(range, invs[last])
    ensures forall r :: 0 <= r < |invs| ==>
              IndexOf(range, invs[first]) <= IndexOf(range, invs[r]) <= IndexOf(range, invs[last])
  {
    first, last := EntriesEnds(invs, range);
    EntryFields(invs, range, first);
    EntryFields(invs, range, last);
    EntriesBuckets(invs, range);
  }
}
