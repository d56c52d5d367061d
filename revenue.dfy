/** Revenue of invoices (TimeSeriesGraph.tsx): the amount of one invoice,
    and the revenue accumulated under one bucket key by the forEach loop. */
module RevenueMap {
  import opened Seqs
  import opened InvoiceTypes
  import opened Calendar
  import opened Buckets

  /** Line 47: quantity times the product's unit price. */
  function LineAmount(x: InvoiceDetail): int {
    x.quantity * x.product.price
  }

  /** Lines 46-48: `reduce` over the details from 0, left to right. */
  function InvoiceRevenue(ds: seq<InvoiceDetail>): (r: int)
    ensures ds == [] ==> r == 0
  {
    if ds == [] then 0 else InvoiceRevenue(ds[..|ds| - 1]) + LineAmount(ds[|ds| - 1])
  }

  /** The same sum taken right to left: the order of the fold does not matter. */
  function SumFromFront(ds: seq<InvoiceDetail>): int {
    if ds == [] then 0 else LineAmount(ds[0]) + SumFromFront(ds[1..])
  }

  lemma {:induction false} InvoiceRevenueAppend(a: seq<InvoiceDetail>, b: seq<InvoiceDetail>)
    ensures InvoiceRevenue(a + b) == InvoiceRevenue(a) + InvoiceRevenue(b)
    decreases |b|
  {
    if b != [] {
      var b' := b[..|b| - 1];
      assert (a + b)[..|a + b| - 1] == a + b';
      InvoiceRevenueAppend(a, b');
    } else {
      assert a + b == a;
    }
  }

  lemma {:induction false} InvoiceRevenueFromFront(ds: seq<InvoiceDetail>)
    ensures InvoiceRevenue(ds) == SumFromFront(ds)
    decreases |ds|
  {
    if ds != [] {
      InvoiceRevenueFromFront(ds[1..]);
      InvoiceRevenueAppend([ds[0]], ds[1..]);
      assert [ds[0]] + ds[1..] == ds;
      assert [ds[0]][..0] == [];
    }
  }

  /** With non-negative quantities and prices an invoice never has negative revenue. */
  lemma {:induction false} InvoiceRevenueNonNegative(ds: seq<InvoiceDetail>)
    requires forall k :: 0 <= k < |ds| ==> ds[k].quantity >= 0 && ds[k].product.price >= 0
    ensures InvoiceRevenue(ds) >= 0
    decreases |ds|
  {
    if ds != [] {
      InvoiceRevenueNonNegative(ds[..|ds| - 1]);
      var x := ds[|ds| - 1];
      assert LineAmount(x) >= 0;
    }
  }

  function Revenue(x: Invoice): int {
    InvoiceRevenue(x.details)
  }

  /** Lines 34-44: the key an invoice is accumulated under. */
  function InvoiceKey(range: TimeRange, x: Invoice): string {
    BucketKey(range, x.createdAt)
  }

  /** The bucket an invoice falls in. */
  function IndexOf(range: TimeRange, x: Invoice): int {
    BucketIndex(range, DayOf(x.createdAt))
  }

  /** Every invoice's bucket has a key that reads back (see Buckets.Supported). */
  predicate AllSupported(invs: seq<Invoice>, range: TimeRange) {
    forall p :: 0 <= p < |invs| ==> Supported(range, invs[p].createdAt)
  }

  /** What the forEach loop (lines 30-54) takes from one invoice: its
      bucket, the key of that bucket, and its revenue. */
  datatype Entry = Entry(bucket: int, key: string, amount: int)

  function EntryOf(range: TimeRange, x: Invoice): Entry {
    Entry(IndexOf(range, x), InvoiceKey(range, x), Revenue(x))
  }

  /** The entries of a list of invoices, in order. */
  function Entries(invs: seq<Invoice>, range: TimeRange): (es: seq<Entry>)
    ensures |es| == |invs|
  {
    Map(x => EntryOf(range, x), invs)
  }

  /** Entry p is the entry of invoice p. */
  lemma EntriesAt(invs: seq<Invoice>, range: TimeRange, p: int)
    requires 0 <= p < |invs|
    ensures Entries(invs, range)[p] == EntryOf(range, invs[p])
  {
    MapAt(x => EntryOf(range, x), invs, p);
  }

  /** The fields of entry p are invoice p's bucket, key and revenue. */
  lemma EntryFields(invs: seq<Invoice>, range: TimeRange, p: int)
    requires 0 <= p < |invs|
    ensures var e := Entries(invs, range)[p];
            e.bucket == IndexOf(range, invs[p]) && e.key == InvoiceKey(range, invs[p])
            && e.amount == Revenue(invs[p])
  {
    EntriesAt(invs, range, p);
  }

  /** Entry p lies in the bucket of invoice p. */
  lemma EntriesBuckets(invs: seq<Invoice>, range: TimeRange)
    ensures forall p :: 0 <= p < |invs| ==> Entries(invs, range)[p].bucket == IndexOf(range, invs[p])
  {
    forall p | 0 <= p < |invs|
      ensures Entries(invs, range)[p].bucket == IndexOf(range, invs[p])
    {
      EntryFields(invs, range, p);
    }
  }

  /** Reordering the invoices reorders their entries. */
  lemma EntriesPermutation(a: seq<Invoice>, b: seq<Invoice>, range: TimeRange)
    requires multiset(a) == multiset(b)
    ensures multiset(Entries(a, range)) == multiset(Entries(b, range))
  {
    MapPermutation(x => EntryOf(range, x), a, b);
  }

  /** What one entry adds to the map value of `key`. */
  function Contribution(e: Entry, key: string): int {
    if e.key == key then e.amount else 0
  }

  /** Lines 50-54 over a list of entries: the revenue accumulated under `key`. */
  function KeyRevenue(es: seq<Entry>, key: string): int {
    if es == [] then 0 else KeyRevenue(es[..|es| - 1], key) + Contribution(es[|es| - 1], key)
  }

  /** The keys of the map after the loop. */
  function ObservedKeys(es: seq<Entry>): set<string> {
    if es == [] then {} else ObservedKeys(es[..|es| - 1]) + {es[|es| - 1].key}
  }

  /** The revenue of all entries together. */
  function TotalAmount(es: seq<Entry>): int {
    if es == [] then 0 else TotalAmount(es[..|es| - 1]) + es[|es| - 1].amount
  }

  /** The revenue of all invoices together. */
  function TotalRevenue(invs: seq<Invoice>): int {
    if invs == [] then 0 else TotalRevenue(invs[..|invs| - 1]) + Revenue(invs[|invs| - 1])
  }

  lemma {:induction false} TotalAmountOfEntries(invs: seq<Invoice>, range: TimeRange)
    ensures TotalAmount(Entries(invs, range)) == TotalRevenue(invs)
    decreases |invs|
  {
    if invs != [] {
      var n := |invs| - 1;
      TotalAmountOfEntries(invs[..n], range);
      var es := Entries(invs, range);
      assert es == Entries(invs[..n], range) + [EntryOf(range, invs[n])];
      assert es[..n] == Entries(invs[..n], range);
    }
  }

  /** A key is observed exactly when some entry has it. */
  lemma {:induction false} ObservedKeysMember(es: seq<Entry>, key: string)
    ensures key in ObservedKeys(es) <==> exists p :: 0 <= p < |es| && es[p].key == key
    decreases |es|
  {
    if es != [] {
      var n := |es| - 1;
      ObservedKeysMember(es[..n], key);
      if key in ObservedKeys(es[..n]) {
        var p :| 0 <= p < n && es[..n][p].key == key;
        assert es[p].key == key;
      }
    }
  }

  /** A key no entry has accumulates nothing: `revenueMap.get(key) || 0` is 0. */
  lemma {:induction false} KeyRevenueUnobserved(es: seq<Entry>, key: string)
    requires key !in ObservedKeys(es)
    ensures KeyRevenue(es, key) == 0
    decreases |es|
  {
    if es != [] {
      KeyRevenueUnobserved(es[..|es| - 1], key);
    }
  }

  lemma {:induction false} KeyRevenueAppend(a: seq<Entry>, b: seq<Entry>, key: string)
    ensures KeyRevenue(a + b, key) == KeyRevenue(a, key) + KeyRevenue(b, key)
    decreases |b|
  {
    if b == [] {
      assert a + b == a;
    } else {
      var b' := b[..|b| - 1];
      assert (a + b)[..|a + b| - 1] == a + b';
      KeyRevenueAppend(a, b', key);
    }
  }

  /** Lines 50-54 for one more entry: its amount is added to its own key only. */
  lemma KeyRevenueSnoc(es: seq<Entry>, e: Entry, key: string)
    ensures KeyRevenue(es + [e], key) == KeyRevenue(es, key) + Contribution(e, key)
  {
    assert (es + [e])[..|es|] == es;
  }

  /** The accumulated revenue does not depend on the order of the entries. */
  lemma {:induction false} KeyRevenuePermutation(a: seq<Entry>, b: seq<Entry>, key: string)
    requires multiset(a) == multiset(b)
    ensures KeyRevenue(a, key) == KeyRevenue(b, key)
    decreases |a|
  {
    if a == [] {
      assert |b| == |multiset(b)| == 0;
    } else {
      var n := |a| - 1;
      var p := PermutationSplit(a, b);
      var b1, b2 := b[..p], b[p + 1..];
      assert a == a[..n] + [a[n]];
      KeyRevenuePermutation(a[..n], b1 + b2, key);
      KeyRevenueAppend(b1, [a[n]], key);
      KeyRevenueAppend(b1 + [a[n]], b2, key);
      KeyRevenueAppend(b1, b2, key);
      assert [a[n]][..0] == [];
    }
  }

  /** Each invoice's revenue is added under exactly one bucket key: among
      supported buckets, it reaches bucket i exactly when it falls in bucket i,
      which depends only on its creation time and the range. */
  lemma ContributionAt(range: TimeRange, x: Invoice, i: int)
    requires Supported(range, x.createdAt) && SupportedIndex(range, i)
    ensures Contribution(EntryOf(range, x), KeyAt(range, i)) == if i == IndexOf(range, x) then Revenue(x) else 0
  {
    BucketKeyMatches(range, x.createdAt, i);
  }

  /** The entries of one more invoice. */
  lemma EntriesSnoc(invs: seq<Invoice>, range: TimeRange, i: int)
    requires 0 <= i < |invs|
    ensures Entries(invs[..i + 1], range) == Entries(invs[..i], range) + [EntryOf(range, invs[i])]
  {
    assert invs[..i + 1][..i] == invs[..i];
  }

  /** Line 72: `revenueMap.get(key) || 0`. */
  function Lookup(m: map<string, int>, key: string): int {
    if key in m then m[key] else 0
  }

  /** Lines 50-54 run over the entries in order: the map after the loop,
      each key mapped to the sum of the amounts of its entries. */
  function RevenueMapOf(es: seq<Entry>): map<string, int> {
    if es == [] then map[]
    else
      var m, e := RevenueMapOf(es[..|es| - 1]), es[|es| - 1];
      if e.key in m then m[e.key := Lookup(m, e.key) + e.amount] else m[e.key := e.amount]
  }

  /** The keys of that map in the order they were first set, the order of
      `Array.from(revenueMap.entries())`. */
  function KeyOrder(es: seq<Entry>): seq<string> {
    if es == [] then []
    else
      var e := es[|es| - 1];
      if e.key in RevenueMapOf(es[..|es| - 1]) then KeyOrder(es[..|es| - 1])
      else KeyOrder(es[..|es| - 1]) + [e.key]
  }

  /** Lines 50-54 on entry i: the map and the key order after entries 0..i
      are those after entries 0..i-1 with entry i's amount added to its key,
      or its key inserted (and listed last) when it is new. */
  lemma RevenueMapSnoc(es: seq<Entry>, i: int)
    requires 0 <= i < |es|
    ensures var m, e := RevenueMapOf(es[..i]), es[i];
            RevenueMapOf(es[..i + 1]) == (if e.key in m then m[e.key := Lookup(m, e.key) + e.amount] else m[e.key := e.amount])
    ensures var e := es[i];
            KeyOrder(es[..i + 1]) == (if e.key in RevenueMapOf(es[..i]) then KeyOrder(es[..i]) else KeyOrder(es[..i]) + [e.key])
  {
    assert es[..i + 1][..i] == es[..i];
  }

  /** RevenueMapSnoc for an entry i with the given key and amount. */
  lemma RevenueMapPush(es: seq<Entry>, i: int, key: string, amount: int)
    requires 0 <= i < |es| && es[i].key == key && es[i].amount == amount
    ensures var m := RevenueMapOf(es[..i]);
            RevenueMapOf(es[..i + 1]) == (if key in m then m[key := Lookup(m, key) + amount] else m[key := amount])
    ensures KeyOrder(es[..i + 1]) == (if key in RevenueMapOf(es[..i]) then KeyOrder(es[..i]) else KeyOrder(es[..i]) + [key])
  {
    RevenueMapSnoc(es, i);
  }

  /** The state of `revenueMap` after the entries es: its keys are the keys
      of the entries, listed once each in insertion order, and each is
      mapped to the revenue accumulated under it. */
  ghost predicate Accumulated(m: map<string, int>, order: seq<string>, es: seq<Entry>) {
    m.Keys == ObservedKeys(es)
    && (forall key :: key in m ==> m[key] == KeyRevenue(es, key))
    && (forall key :: key in m <==> key in order)
    && (forall a, b :: 0 <= a < b < |order| ==> order[a] != order[b])
  }

  /** The empty map is the state before any entry. */
  lemma AccumulatedEmpty()
    ensures Accumulated(map[], [], [])
  {
  }

  /** Lines 50-54: adding an entry's amount to its key, or inserting the key
      with that amount when it is new, accounts for one more entry. */
  lemma AccumulateStep(m: map<string, int>, order: seq<string>, es: seq<Entry>, e: Entry)
    requires Accumulated(m, order, es)
    ensures e.key in m ==> Accumulated(m[e.key := Lookup(m, e.key) + e.amount], order, es + [e])
    ensures e.key !in m ==> Accumulated(m[e.key := e.amount], order + [e.key], es + [e])
  {
    if e.key in m {
      AccumulateUpdate(m, order, es, e);
    } else {
      AccumulateInsert(m, order, es, e);
    }
  }

  /** One more entry adds its key to the observed keys and its amount to its key's revenue. */
  lemma ObservedSnoc(es: seq<Entry>, e: Entry)
    ensures ObservedKeys(es + [e]) == ObservedKeys(es) + {e.key}
    ensures forall key :: KeyRevenue(es + [e], key) == KeyRevenue(es, key) + Contribution(e, key)
  {
    assert (es + [e])[..|es|] == es;
    forall key
      ensures KeyRevenue(es + [e], key) == KeyRevenue(es, key) + Contribution(e, key)
    {
      KeyRevenueSnoc(es, e, key);
    }
  }

  /** The `has` branch: an entry of a key already in the map. */
  lemma AccumulateUpdate(m: map<string, int>, order: seq<string>, es: seq<Entry>, e: Entry)
    requires Accumulated(m, order, es) && e.key in m
    ensures Accumulated(m[e.key := Lookup(m, e.key) + e.amount], order, es + [e])
  {
    ObservedSnoc(es, e);
    var m' := m[e.key := Lookup(m, e.key) + e.amount];
    assert forall key :: key in m' ==> m'[key] == KeyRevenue(es + [e], key);
  }

  /** The other branch: an entry of a new key, which is set and listed last. */
  lemma AccumulateInsert(m: map<string, int>, order: seq<string>, es: seq<Entry>, e: Entry)
    requires Accumulated(m, order, es) && e.key !in m
    ensures Accumulated(m[e.key := e.amount], order + [e.key], es + [e])
  {
    ObservedSnoc(es, e);
    var m', order' := m[e.key := e.amount], order + [e.key];
    KeyRevenueUnobserved(es, e.key);
    assert forall key :: key in m' ==> m'[key] == KeyRevenue(es + [e], key);
    assert forall key :: key in m' <==> key in order';
    assert forall a, b :: 0 <= a < b < |order'| ==> order'[a] != order'[b];
  }

  /** The map and the key order after the loop hold the keys of the
      entries, once each, and the revenue accumulated under each. */
  lemma {:induction false} AccumulatedOf(es: seq<Entry>)
    ensures Accumulated(RevenueMapOf(es), KeyOrder(es), es)
    decreases |es|
  {
    if es == [] {
      AccumulatedEmpty();
    } else {
      var n := |es| - 1;
      AccumulatedOf(es[..n]);
      AccumulateStep(RevenueMapOf(es[..n]), KeyOrder(es[..n]), es[..n], es[n]);
      assert es[..n] + [es[n]] == es;
    }
  }

  /** Line 72: looking a key up in the accumulated map gives the revenue
      accumulated under it, 0 for a key no entry has. */
  lemma LookupRevenue(m: map<string, int>, order: seq<string>, es: seq<Entry>, key: string)
    requires Accumulated(m, order, es)
    ensures Lookup(m, key) == KeyRevenue(es, key)
  {
    if key !in m {
      KeyRevenueUnobserved(es, key);
    }
  }
}
