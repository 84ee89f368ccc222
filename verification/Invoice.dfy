/** The part of the internal invoice that billing reads (`app/domain/invoice/dto.py`). */
module Invoice {
  import opened Core

  datatype Discount = Discount(amount: Option<real>, rate: Option<real>)

  datatype Tax = Tax(rate: Option<real>, amount: Option<real>)

  /** `identified`: the line carries some deterministic product identifier
      (`app/application/expense_mapping/predicates.py`). */
  datatype Line = Line(
    number: Option<string>,
    description: Option<string>,
    identified: bool,
    quantity: Option<real>,
    unitPrice: Option<real>,
    extension: Option<real>,
    discounts: seq<Discount>,
    taxes: seq<Tax>)

  /** `isReturn`: a return document type; `productSource`: the supplier is a registered product source. */
  datatype Invoice = Invoice(
    invoiceNumber: string,
    issueDate: Option<int>,
    currency: Option<string>,
    isReturn: bool,
    productSource: bool,
    taxExclusive: Option<real>,
    taxInclusive: Option<real>,
    lines: seq<Line>)

  predicate IdentifierFree(invoice: Invoice) {
    invoice.lines != [] && forall i :: 0 <= i < |invoice.lines| ==> !invoice.lines[i].identified
  }
}
