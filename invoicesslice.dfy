/** The invoices reducer: the state the dashboard keeps about the invoices
    fetched from the server, and the six cases that update it when a fetch
    of one page (`fetchInvoices`) or of all invoices (`fetchAllInvoices`)
    starts, succeeds or fails. */
module InvoicesSlice {
  import opened Wrappers
  import opened Seqs
  import opened InvoiceTypes

  datatype Status = Idle | Loading | Succeeded | Failed

  /** The pagination block of a page of invoices. */
  datatype Meta = Meta(totalItems: int, itemsPerPage: int, currentPage: int, totalPages: int)

  /** The whole state as one value. */
  datatype Snapshot = Snapshot(
    items: seq<Invoice>,
    allInvoices: seq<Invoice>,
    status: Status,
    error: Option<string>,
    meta: Meta)

  const InitialMeta := Meta(0, 10, 1, 1)

  /** `initialState`: nothing fetched, no error, one empty page of ten. */
  const InitialSnapshot := Snapshot([], [], Idle, None, InitialMeta)

  const FetchInvoicesFallback := "Failed to fetch invoices"
  const FetchAllInvoicesFallback := "Failed to fetch all invoices"

  /** The actions the reducer handles: the lifecycle of the two thunks.
      A rejection carries `action.error.message`, which may be absent. */
  datatype Action =
    | FetchInvoicesPending
    | FetchInvoicesFulfilled(data: seq<Invoice>, pageMeta: Meta)
    | FetchInvoicesRejected(message: Option<string>)
    | FetchAllInvoicesPending
    | FetchAllInvoicesFulfilled(invoices: seq<Invoice>)
    | FetchAllInvoicesRejected(failure: Option<string>)

  predicate IsPending(a: Action) {
    a.FetchInvoicesPending? || a.FetchAllInvoicesPending?
  }

  predicate IsFulfilled(a: Action) {
    a.FetchInvoicesFulfilled? || a.FetchAllInvoicesFulfilled?
  }

  predicate IsRejected(a: Action) {
    a.FetchInvoicesRejected? || a.FetchAllInvoicesRejected?
  }

  /** The error text a rejection stores. */
  function RejectionError(a: Action): (r: string)
    requires IsRejected(a)
    ensures r != ""
  {
    match a
    case FetchInvoicesRejected(message) => OrElse(message, FetchInvoicesFallback)
    case FetchAllInvoicesRejected(message) => OrElse(message, FetchAllInvoicesFallback)
  }

  /** The status each kind of action leaves behind. */
  function StatusAfter(a: Action): Status {
    if IsPending(a) then Loading else if IsFulfilled(a) then Succeeded else Failed
  }

  /** The reducer on state values: what the case for action a makes of
      state s. Every case sets the status from the kind of the action; a
      pending action changes nothing else (lines 75-77, 87-89); a rejection
      records its error and keeps the data (lines 83-86, 94-97); each list
      is written by its own success case only (lines 78-82, 90-93), and no
      case but a rejection touches the error. */
  function Reduce(s: Snapshot, a: Action): (r: Snapshot)
    ensures r.status == StatusAfter(a)
    ensures IsPending(a) ==> r == s.(status := Loading)
    ensures IsRejected(a) ==> r.error == Some(RejectionError(a))
    ensures !IsRejected(a) ==> r.error == s.error
    ensures a.FetchInvoicesFulfilled? ==> r.items == a.data && r.meta == a.pageMeta
    ensures !a.FetchInvoicesFulfilled? ==> r.items == s.items && r.meta == s.meta
    ensures a.FetchAllInvoicesFulfilled? ==> r.allInvoices == a.invoices
    ensures !a.FetchAllInvoicesFulfilled? ==> r.allInvoices == s.allInvoices
  {
    match a
    case FetchInvoicesPending => s.(status := Loading)
    case FetchInvoicesFulfilled(data, pageMeta) => s.(status := Succeeded, items := data, meta := pageMeta)
    case FetchInvoicesRejected(message) => s.(status := Failed, error := Some(OrElse(message, FetchInvoicesFallback)))
    case FetchAllInvoicesPending => s.(status := Loading)
    case FetchAllInvoicesFulfilled(invoices) => s.(status := Succeeded, allInvoices := invoices)
    case FetchAllInvoicesRejected(message) => s.(status := Failed, error := Some(OrElse(message, FetchAllInvoicesFallback)))
  }

  /** The state after a run of actions, dispatched in order. */
  function ReduceAll(s: Snapshot, acts: seq<Action>): Snapshot {
    if acts == [] then s else Reduce(ReduceAll(s, acts[..|acts| - 1]), Last(acts))
  }

  /** The status says which kind of action came last, and is never idle
      again once an action has been handled. */
  lemma StatusKinds(a: Action)
    ensures StatusAfter(a) == Loading <==> IsPending(a)
    ensures StatusAfter(a) == Succeeded <==> IsFulfilled(a)
    ensures StatusAfter(a) == Failed <==> IsRejected(a)
    ensures StatusAfter(a) != Idle
  {
  }

  // ---- Runs of actions ----

  /** After a non-empty run the status is the one its last action leaves. */
  lemma RunStatus(s: Snapshot, acts: seq<Action>)
    requires acts != []
    ensures ReduceAll(s, acts).status == StatusAfter(Last(acts))
  {
  }

  /** No action of the run after position k is of the kind `touches`. */
  ghost predicate NoneAfter(acts: seq<Action>, k: int, touches: Action -> bool) {
    forall j :: 0 <= j < |acts| && k < j ==> !touches(acts[j])
  }

  /** The page shown is the one of the last successful page fetch of the
      run, whatever came after it. */
  lemma {:induction false} ItemsFromLastPage(s: Snapshot, acts: seq<Action>, k: int)
    requires 0 <= k < |acts| && acts[k].FetchInvoicesFulfilled?
    requires NoneAfter(acts, k, (a: Action) => a.FetchInvoicesFulfilled?)
    ensures ReduceAll(s, acts).items == acts[k].data && ReduceAll(s, acts).meta == acts[k].pageMeta
    decreases |acts|
  {
    var init := acts[..|acts| - 1];
    if k < |acts| - 1 {
      assert init[k] == acts[k];
      assert NoneAfter(init, k, (a: Action) => a.FetchInvoicesFulfilled?) by {
        forall j | k < j < |init| ensures !init[j].FetchInvoicesFulfilled? {
          assert init[j] == acts[j];
        }
      }
      ItemsFromLastPage(s, init, k);
      assert !acts[|acts| - 1].FetchInvoicesFulfilled?;
    }
  }

  /** Without a successful page fetch the page and its block stay as they were. */
  lemma {:induction false} ItemsUntouched(s: Snapshot, acts: seq<Action>)
    requires NoneAfter(acts, -1, (a: Action) => a.FetchInvoicesFulfilled?)
    ensures ReduceAll(s, acts).items == s.items && ReduceAll(s, acts).meta == s.meta
    decreases |acts|
  {
    if acts != [] {
      var init := acts[..|acts| - 1];
      assert NoneAfter(init, -1, (a: Action) => a.FetchInvoicesFulfilled?) by {
        forall j | 0 <= j < |init| ensures !init[j].FetchInvoicesFulfilled? {
          assert init[j] == acts[j];
        }
      }
      ItemsUntouched(s, init);
      assert !acts[|acts| - 1].FetchInvoicesFulfilled?;
    }
  }

  /** The full list is the one of the last successful fetch of all invoices. */
  lemma {:induction false} AllInvoicesFromLast(s: Snapshot, acts: seq<Action>, k: int)
    requires 0 <= k < |acts| && acts[k].FetchAllInvoicesFulfilled?
    requires NoneAfter(acts, k, (a: Action) => a.FetchAllInvoicesFulfilled?)
    ensures ReduceAll(s, acts).allInvoices == acts[k].invoices
    decreases |acts|
  {
    var init := acts[..|acts| - 1];
    if k < |acts| - 1 {
      assert init[k] == acts[k];
      assert NoneAfter(init, k, (a: Action) => a.FetchAllInvoicesFulfilled?) by {
        forall j | k < j < |init| ensures !init[j].FetchAllInvoicesFulfilled? {
          assert init[j] == acts[j];
        }
      }
      AllInvoicesFromLast(s, init, k);
      assert !acts[|acts| - 1].FetchAllInvoicesFulfilled?;
    }
  }

  /** The error is the one the last rejection of the run recorded, however
      many successes followed it: no case clears it. */
  lemma {:induction false} ErrorFromLastRejection(s: Snapshot, acts: seq<Action>, k: int)
    requires 0 <= k < |acts| && IsRejected(acts[k])
    requires NoneAfter(acts, k, IsRejected)
    ensures ReduceAll(s, acts).error == Some(RejectionError(acts[k]))
    decreases |acts|
  {
    var init := acts[..|acts| - 1];
    if k < |acts| - 1 {
      assert init[k] == acts[k];
      assert NoneAfter(init, k, IsRejected) by {
        forall j | k < j < |init| ensures !IsRejected(init[j]) {
          assert init[j] == acts[j];
        }
      }
      ErrorFromLastRejection(s, init, k);
      assert !IsRejected(acts[|acts| - 1]);
    }
  }

  /** Once an error is recorded it is never reset to null. */
  lemma {:induction false} ErrorSticky(s: Snapshot, acts: seq<Action>)
    requires s.error.Some?
    ensures ReduceAll(s, acts).error.Some?
    decreases |acts|
  {
    if acts != [] {
      ErrorSticky(s, acts[..|acts| - 1]);
    }
  }

  /** The stale error: a failed page fetch, a retry and a successful fetch
      leave status `succeeded` next to the first failure's error. */
  lemma StaleError(data: seq<Invoice>, m: Meta)
    ensures var r := ReduceAll(InitialSnapshot, [FetchInvoicesRejected(None), FetchInvoicesPending, FetchInvoicesFulfilled(data, m)]);
            r.status == Succeeded && r.error == Some(FetchInvoicesFallback) && r.items == data
  {
    var acts := [FetchInvoicesRejected(None), FetchInvoicesPending, FetchInvoicesFulfilled(data, m)];
    assert acts[..2] == [FetchInvoicesRejected(None), FetchInvoicesPending];
    assert acts[..2][..1] == [FetchInvoicesRejected(None)];
    assert acts[..2][..1][..0] == [];
    var failed := Reduce(InitialSnapshot, FetchInvoicesRejected(None));
    assert ReduceAll(InitialSnapshot, acts[..2][..1]) == failed;
    assert failed.error == Some(FetchInvoicesFallback);
    assert ReduceAll(InitialSnapshot, acts[..2]) == Reduce(failed, FetchInvoicesPending);
  }

  // ---- The slice ----

  /** The slice's state, updated in place by one method per reducer case. */
  class InvoicesState {
    var items: seq<Invoice>
    var allInvoices: seq<Invoice>
    var status: Status
    var error: Option<string>
    var meta: Meta

    function Value(): Snapshot
      reads this
    {
      Snapshot(items, allInvoices, status, error, meta)
    }

    /** Lines 40-51. */
    constructor()
      ensures items == [] && allInvoices == [] && status == Idle && error == None && meta == Meta(0, 10, 1, 1)
      ensures Value() == InitialSnapshot
    {
      items := [];
      allInvoices := [];
      status := Idle;
      error := None;
      meta := InitialMeta;
    }

    /** Lines 75-77. */
    method FetchInvoicesPending()
      modifies this
      ensures status == Loading
      ensures items == old(items) && allInvoices == old(allInvoices) && error == old(error) && meta == old(meta)
    {
      status := Loading;
    }

    /** Lines 78-82. */
    method FetchInvoicesFulfilled(data: seq<Invoice>, pageMeta: Meta)
      modifies this
      ensures status == Succeeded && items == data && meta == pageMeta
      ensures allInvoices == old(allInvoices) && error == old(error)
    {
      status := Succeeded;
      items := data;
      meta := pageMeta;
    }

    /** Lines 83-86. */
    method FetchInvoicesRejected(message: Option<string>)
      modifies this
      ensures status == Failed && error == Some(OrElse(message, FetchInvoicesFallback))
      ensures items == old(items) && allInvoices == old(allInvoices) && meta == old(meta)
    {
      status := Failed;
      error := Some(OrElse(message, FetchInvoicesFallback));
    }

    /** Lines 87-89. */
    method FetchAllInvoicesPending()
      modifies this
      ensures status == Loading
      ensures items == old(items) && allInvoices == old(allInvoices) && error == old(error) && meta == old(meta)
    {
      status := Loading;
    }

    /** Lines 90-93. */
    method FetchAllInvoicesFulfilled(invoices: seq<Invoice>)
      modifies this
      ensures status == Succeeded && allInvoices == invoices
      ensures items == old(items) && error == old(error) && meta == old(meta)
    {
      status := Succeeded;
      allInvoices := invoices;
    }

    /** Lines 94-97. */
    method FetchAllInvoicesRejected(message: Option<string>)
      modifies this
      ensures status == Failed && error == Some(OrElse(message, FetchAllInvoicesFallback))
      ensures items == old(items) && allInvoices == old(allInvoices) && meta == old(meta)
    {
      status := Failed;
      error := Some(OrElse(message, FetchAllInvoicesFallback));
    }

    /** The reducer: the case matching the action runs, and the new state is
        what Reduce says, so every lemma above holds of the slice. */
    method Dispatch(a: Action)
      modifies this
      ensures Value() == Reduce(old(Value()), a)
    {
      match a
      case FetchInvoicesPending => FetchInvoicesPending();
      case FetchInvoicesFulfilled(data, pageMeta) => FetchInvoicesFulfilled(data, pageMeta);
      case FetchInvoicesRejected(message) => FetchInvoicesRejected(message);
      case FetchAllInvoicesPending => FetchAllInvoicesPending();
      case FetchAllInvoicesFulfilled(invoices) => FetchAllInvoicesFulfilled(invoices);
      case FetchAllInvoicesRejected(message) => FetchAllInvoicesRejected(message);
    }
  }
}
