/** The invoice records the dashboard receives from the server, and the
    form data an invoice is created from. Timestamps are instants in
    milliseconds (see module Calendar); amounts are whole numbers of the
    currency's minor unit. */
module InvoiceTypes {
  import opened Wrappers

  datatype Product = Product(id: int, name: string, pictureUrl: string, stock: int, price: int)

  /** One line of an invoice: a quantity of one product. */
  datatype InvoiceDetail = InvoiceDetail(id: int, quantity: int, invoiceId: int, productId: int, product: Product)

  datatype Invoice = Invoice(
    id: int,
    customer: string,
    salesperson: string,
    paymentType: string,
    notes: string,
    createdAt: int,
    updatedAt: int,
    details: seq<InvoiceDetail>)

  datatype PaymentType = Cash | Credit | NotCashOrCredit

  /** A product row of the invoice form; product id 0 marks an unfilled row. */
  datatype FormProduct = FormProduct(productId: int, quantity: int, name: Option<string>, price: Option<int>)

  datatype InvoiceFormData = InvoiceFormData(
    date: string,
    customerName: string,
    salespersonName: string,
    paymentType: PaymentType,
    notes: string,
    products: seq<FormProduct>)
}
