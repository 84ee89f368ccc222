/** Vendor Bill values and the shape every line must have (`app/billing/dto.py`). */
module VendorBill {
  import opened Core

  datatype RawPin = RawPin(lineNumber: string, productId: int, accountId: int, issued: bool)

  /** A RESALE or INTERNAL_USE line account; `issued` is the seal only execution-time validation can set.
      The constructor refuses a blank line number and non-positive ids. */
  type LinePin = p: RawPin | Strip(p.lineNumber) != "" && p.productId > 0 && p.accountId > 0
    witness RawPin("1", 1, 1, false)

  datatype BillLine = BillLine(
    productId: Option<int>,
    accountId: Option<int>,
    quantity: real,
    unitPrice: real,
    taxIds: seq<int>,
    description: Option<string>,
    resale: Option<LinePin>,
    internalUse: Option<LinePin>,
    depreciationModel: Option<int>)

  datatype Bill = Bill(
    supplierId: int,
    invoiceNumber: string,
    invoiceDate: Option<int>,
    currency: string,
    companyId: Option<int>,
    lines: seq<BillLine>)

  predicate PinnedBy(line: BillLine, pin: LinePin) {
    pin.issued && line.productId == Some(pin.productId) && line.accountId == Some(pin.accountId)
  }

  /** `VendorBillLine.__post_init__`, check by check; `false` where it raises. */
  predicate Constructible(line: BillLine) {
    if line.depreciationModel.Some? &&
       (line.depreciationModel.value <= 0 || line.productId.Some? || line.resale.Some? || line.internalUse.Some?
        || line.accountId.None?)
    then false
    else if line.internalUse.Some? then
      line.resale.None? && line.internalUse.value.issued && PositiveId(line.productId) && PositiveId(line.accountId)
      && PinnedBy(line, line.internalUse.value)
    else if line.resale.Some? then
      line.resale.value.issued && PositiveId(line.productId) && PositiveId(line.accountId)
      && PinnedBy(line, line.resale.value)
    else if line.productId.Some? == line.accountId.Some? then false
    else if line.productId.Some? then PositiveId(line.productId)
    else PositiveId(line.accountId)
  }

  datatype Shape = ProductLine | AccountLine | AssetLine | ResaleLine | InternalUseLine

  predicate HasShape(line: BillLine, shape: Shape) {
    match shape
    case ProductLine =>
      PositiveId(line.productId) && line.accountId.None? && line.resale.None? && line.internalUse.None?
      && line.depreciationModel.None?
    case AccountLine =>
      PositiveId(line.accountId) && line.productId.None? && line.resale.None? && line.internalUse.None?
      && line.depreciationModel.None?
    case AssetLine =>
      PositiveId(line.accountId) && line.productId.None? && line.resale.None? && line.internalUse.None?
      && PositiveId(line.depreciationModel)
    case ResaleLine =>
      line.resale.Some? && PinnedBy(line, line.resale.value) && line.internalUse.None? && line.depreciationModel.None?
    case InternalUseLine =>
      line.internalUse.Some? && PinnedBy(line, line.internalUse.value) && line.resale.None?
      && line.depreciationModel.None?
  }

  /** The constructor accepts exactly the five shapes, and no line has two of them. */
  lemma ConstructibleShapes(line: BillLine)
    ensures Constructible(line) <==> exists s: Shape :: HasShape(line, s)
    ensures forall s: Shape, t: Shape :: HasShape(line, s) && HasShape(line, t) ==> s == t
  {
    if Constructible(line) {
      var s := if line.internalUse.Some? then InternalUseLine
               else if line.resale.Some? then ResaleLine
               else if line.depreciationModel.Some? then AssetLine
               else if line.productId.Some? then ProductLine else AccountLine;
      assert HasShape(line, s);
    }
  }

  /** A product-backed line carries an account only when that account is its sealed pin. */
  lemma AccountOnProductIsPinned(line: BillLine)
    requires Constructible(line) && line.productId.Some? && line.accountId.Some?
    ensures (line.resale.Some? && PinnedBy(line, line.resale.value)) ||
            (line.internalUse.Some? && PinnedBy(line, line.internalUse.value))
  {
  }

  // ----- the Odoo line payload

  datatype Payload = Payload(
    productId: Option<int>,
    accountId: Option<int>,
    depreciationModel: Option<int>,
    uomId: Option<int>,
    quantity: real,
    unitPrice: real,
    taxIds: seq<int>,
    name: Option<string>)

  predicate HasUom(line: BillLine, uoms: map<int, int>) {
    line.productId.Some? && line.productId.value in uoms && uoms[line.productId.value] > 0
  }

  /** `_product_line_payload`; `None` where it raises. */
  function ProductPayload(line: BillLine, uoms: map<int, int>): Option<Payload> {
    if HasUom(line, uoms) then
      Some(Payload(line.productId, None, None, Some(uoms[line.productId.value]), line.quantity, line.unitPrice,
                   line.taxIds, line.description))
    else None
  }

  function Pinned(payload: Option<Payload>, pin: LinePin): Option<Payload> {
    if payload.Some? then Some(payload.value.(accountId := Some(pin.accountId))) else None
  }

  function ExpensePayload(line: BillLine): Payload {
    Payload(None, line.accountId, None, None, line.quantity, line.unitPrice, line.taxIds, line.description)
  }

  /** `_line_payload`: the dispatch over the line's shape, in its order. */
  function LinePayload(line: BillLine, uoms: map<int, int>): Option<Payload> {
    if line.resale.Some? then Pinned(ProductPayload(line, uoms), line.resale.value)
    else if line.internalUse.Some? then Pinned(ProductPayload(line, uoms), line.internalUse.value)
    else if line.depreciationModel.Some? then Some(ExpensePayload(line).(depreciationModel := line.depreciationModel))
    else if line.accountId.Some? then Some(ExpensePayload(line))
    else ProductPayload(line, uoms)
  }

  /** Whatever the shape, the payload posts exactly the line's product, account, asset model, quantity, price and
      taxes; it is refused exactly when a product line has no resolved unit of measure. */
  lemma PayloadLosesNothing(line: BillLine, uoms: map<int, int>)
    requires Constructible(line)
    ensures LinePayload(line, uoms).None? <==> line.productId.Some? && !HasUom(line, uoms)
    ensures LinePayload(line, uoms).Some? ==>
      var payload := LinePayload(line, uoms).value;
      && payload == Payload(line.productId, line.accountId, line.depreciationModel, payload.uomId,
                            line.quantity, line.unitPrice, line.taxIds, line.description)
      && (payload.uomId.Some? <==> line.productId.Some?)
      && (line.productId.Some? ==> line.productId.value in uoms && payload.uomId == Some(uoms[line.productId.value]))
  {
  }
}
