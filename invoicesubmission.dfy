/** Creating an invoice from the form: the JSON body sent to the server,
    the outcome of the server's reply, and the `isSubmitting` flag that is
    raised while the request is in flight. The HTTP exchange itself is a
    parameter: the reply is given as data. */
module InvoiceSubmission {
  import opened Wrappers
  import opened InvoiceTypes

  /** One line of the body: only the quantity and the product id are sent. */
  datatype DetailBody = DetailBody(quantity: int, productId: int)

  /** The body of the POST; the form's date is not part of it. */
  datatype InvoiceBody = InvoiceBody(
    customer: string,
    salesperson: string,
    paymentType: PaymentType,
    notes: string,
    details: seq<DetailBody>)

  /** The line a filled form row becomes; `Number(quantity)` is the identity
      on the form's numeric quantity. */
  function DetailOf(p: FormProduct): (d: DetailBody)
    ensures d.quantity == p.quantity && d.productId == p.productId
  {
    DetailBody(p.quantity, p.productId)
  }

  /** Lines 20-25: the rows with a product chosen (product id not 0), in form
      order, each reduced to its quantity and product id. */
  function Details(products: seq<FormProduct>): (ds: seq<DetailBody>)
    ensures |ds| <= |products|
    ensures forall d :: d in ds ==> d.productId != 0
  {
    if products == [] then []
    else
      var init, p := products[..|products| - 1], products[|products| - 1];
      if p.productId != 0 then Details(init) + [DetailOf(p)] else Details(init)
  }

  /** Lines 15-26: the header fields renamed, the date dropped, the
      details built from the product rows. */
  function Body(data: InvoiceFormData): (b: InvoiceBody)
    ensures b.customer == data.customerName && b.salesperson == data.salespersonName
    ensures b.paymentType == data.paymentType && b.notes == data.notes
    ensures b.details == Details(data.products)
  {
    InvoiceBody(data.customerName, data.salespersonName, data.paymentType, data.notes, Details(data.products))
  }

  // ---- Properties of the body ----

  /** The details of two lists of rows one after the other are the details
      of the first followed by those of the second: the filter keeps the
      form's order. */
  lemma {:induction false} DetailsAppend(a: seq<FormProduct>, b: seq<FormProduct>)
    ensures Details(a + b) == Details(a) + Details(b)
    decreases |b|
  {
    if b == [] {
      assert a + b == a;
    } else {
      var init := b[..|b| - 1];
      assert (a + b)[..|a + b| - 1] == a + init;
      assert (a + b)[|a + b| - 1] == b[|b| - 1];
      DetailsAppend(a, init);
    }
  }

  /** A single row is sent exactly when its product id is not 0. */
  lemma DetailsSingle(p: FormProduct)
    ensures Details([p]) == if p.productId != 0 then [DetailOf(p)] else []
  {
    assert [p][..0] == [];
  }

  /** A line is sent exactly when some row with a chosen product has its
      quantity and product id. */
  lemma {:induction false} DetailsMember(products: seq<FormProduct>, d: DetailBody)
    ensures d in Details(products) <==>
            exists i :: 0 <= i < |products| && products[i].productId != 0 && DetailOf(products[i]) == d
    decreases |products|
  {
    if products != [] {
      var init, p := products[..|products| - 1], products[|products| - 1];
      DetailsMember(init, d);
      if exists i :: 0 <= i < |init| && init[i].productId != 0 && DetailOf(init[i]) == d {
        var i :| 0 <= i < |init| && init[i].productId != 0 && DetailOf(init[i]) == d;
        assert products[i] == init[i];
      }
      if exists i :: 0 <= i < |products| && products[i].productId != 0 && DetailOf(products[i]) == d {
        var i :| 0 <= i < |products| && products[i].productId != 0 && DetailOf(products[i]) == d;
        if i < |init| {
          assert init[i] == products[i];
        }
      }
    }
  }

  /** The number of lines is the number of rows with a chosen product. */
  function FilledRows(products: seq<FormProduct>): nat {
    if products == [] then 0
    else FilledRows(products[..|products| - 1]) + if products[|products| - 1].productId != 0 then 1 else 0
  }

  lemma {:induction false} DetailsLength(products: seq<FormProduct>)
    ensures |Details(products)| == FilledRows(products)
    ensures FilledRows(products) == |products| <==> forall i :: 0 <= i < |products| ==> products[i].productId != 0
    decreases |products|
  {
    if products != [] {
      var init := products[..|products| - 1];
      DetailsLength(init);
      assert forall i :: 0 <= i < |init| ==> init[i] == products[i];
      assert FilledRows(init) <= |init| by {
        assert |Details(init)| <= |init|;
      }
    }
  }

  /** The names and prices of the rows are dropped: rows that agree on
      product id and quantity give the same details. */
  lemma {:induction false} DetailsIgnoreNamePrice(ps: seq<FormProduct>, qs: seq<FormProduct>)
    requires |ps| == |qs|
    requires forall i :: 0 <= i < |ps| ==> ps[i].productId == qs[i].productId && ps[i].quantity == qs[i].quantity
    ensures Details(ps) == Details(qs)
    decreases |ps|
  {
    if ps != [] {
      var n := |ps| - 1;
      assert forall i :: 0 <= i < n ==> ps[..n][i] == ps[i] && qs[..n][i] == qs[i];
      DetailsIgnoreNamePrice(ps[..n], qs[..n]);
      assert DetailOf(ps[n]) == DetailOf(qs[n]);
    }
  }

  /** The form's date is not sent. */
  lemma BodyIgnoresDate(data: InvoiceFormData, date: string)
    ensures Body(data.(date := date)) == Body(data)
  {
  }

  // ---- The reply ----

  /** What the awaited request yields: the request fails without a response
      (fetch rejects, with the error it rejects with), or a response arrives
      with its `ok` flag and the `message` of its JSON body, if any. */
  datatype Reply = NoResponse(reason: string) | Response(ok: bool, message: Option<string>)

  /** How `submitInvoice` ends: it resolves, or it throws an error with a message. */
  datatype Outcome = Created | Thrown(message: string)

  const CreateFallback := "Failed to create invoice"

  /** Lines 29-32: an ok response resolves; any other response throws the
      server's message, or the fallback when it is absent or empty; a
      request that fails throws its own error. */
  function OutcomeOf(reply: Reply): (o: Outcome)
    ensures o.Created? <==> reply.Response? && reply.ok
    ensures reply.Response? && !reply.ok ==> o.Thrown? && o.message != ""
    ensures reply.Response? && !reply.ok && reply.message.Some? && reply.message.value != "" ==> o == Thrown(reply.message.value)
    ensures reply.Response? && !reply.ok && (reply.message.None? || reply.message.value == "") ==> o == Thrown(CreateFallback)
  {
    match reply
    case NoResponse(reason) => Thrown(reason)
    case Response(ok, message) => if ok then Created else Thrown(OrElse(message, CreateFallback))
  }

  // ---- The hook's state ----

  /** The hook's state: whether a submission is in flight. `submitInvoice`
      runs in two halves around the awaited request. */
  class Submission {
    var isSubmitting: bool

    /** Line 5: `useState(false)`. */
    constructor()
      ensures !isSubmitting
    {
      isSubmitting := false;
    }

    /** Lines 8-27, up to the await: the flag is raised and the body to
        send is built. */
    method Start(data: InvoiceFormData) returns (body: InvoiceBody)
      modifies this
      ensures isSubmitting
      ensures body == Body(data)
    {
      isSubmitting := true;
      body := Body(data);
    }

    /** Lines 29-35, after the await: the reply decides the outcome, and the
        `finally` block lowers the flag on every path. */
    method Finish(reply: Reply) returns (outcome: Outcome)
      modifies this
      ensures !isSubmitting
      ensures outcome == OutcomeOf(reply)
    {
      match reply {
        case NoResponse(reason) =>
          outcome := Thrown(reason);
        case Response(ok, message) =>
          if !ok {
            outcome := Thrown(OrElse(message, CreateFallback));
          } else {
            outcome := Created;
          }
      }
      isSubmitting := false;
    }

    /** The whole call: the body sent is Body(data), the flag is up while
        the request is awaited and down once the call has returned or
        thrown. */
    method SubmitInvoice(data: InvoiceFormData, reply: Reply) returns (body: InvoiceBody, wasSubmitting: bool, outcome: Outcome)
      modifies this
      ensures body == Body(data) && wasSubmitting
      ensures !isSubmitting && outcome == OutcomeOf(reply)
    {
      body := Start(data);
      wasSubmitting := isSubmitting;
      outcome := Finish(reply);
    }
  }
}
