/** The six tables the workflow reads and writes, held in memory, with the
    queries it issues against them. Rows keep insertion order; a query that
    fetches one row without `ORDER BY` is modelled as returning the first
    matching row in that order. Identifiers are assigned from counters, as
    an identity column does: each new row gets the counter, which then
    moves past it. */
module Tables {
  import opened Results
  import opened Dates

  /** Unit prices, totals and amounts pass through the workflow uninspected. */
  type Amount = string

  datatype Invoice = Invoice(
    id: nat,
    waybill: string,
    exportDate: string,
    billToName: string,
    billToAddress: string,
    shipToName: string,
    shipToAddress: string)

  datatype LineItem = LineItem(
    id: nat,
    invoiceId: nat,
    description: string,
    quantity: int,
    unitPrice: Amount,
    total: Amount)

  datatype Vendor = Vendor(id: nat, name: string, creditDays: int)

  datatype PurchaseOrder = PurchaseOrder(
    id: nat,
    vendorId: nat,
    description: string,
    ordered: int,
    received: int)

  datatype PaymentReminder = PaymentReminder(
    vendorId: nat,
    lineItemId: nat,
    invoiceDate: Date,
    dueDate: Date,
    waybill: string,
    amount: Amount)

  datatype DeliveryReceipt = DeliveryReceipt(poId: nat, waybill: string, quantity: int, date: Date)

  datatype Store = Store(
    invoices: seq<Invoice>,
    lineItems: seq<LineItem>,
    vendors: seq<Vendor>,
    purchaseOrders: seq<PurchaseOrder>,
    reminders: seq<PaymentReminder>,
    receipts: seq<DeliveryReceipt>,
    nextInvoiceId: nat,
    nextLineItemId: nat)

  // ---------------------------------------------------------------------------
  // Queries

  /** Some invoice carries waybill `w`. */
  predicate HasWaybill(invoices: seq<Invoice>, w: string) {
    exists i :: 0 <= i < |invoices| && invoices[i].waybill == w
  }

  /** How many invoices carry waybill `w`. */
  function CountWaybill(invoices: seq<Invoice>, w: string): (n: nat)
    ensures n == 0 <==> !HasWaybill(invoices, w)
    ensures n <= |invoices|
    decreases |invoices|
  {
    if invoices == [] then 0
    else
      var last := invoices[|invoices| - 1];
      var init := invoices[..|invoices| - 1];
      assert forall i :: 0 <= i < |init| ==> init[i] == invoices[i];
      CountWaybill(init, w) + (if last.waybill == w then 1 else 0)
  }

  /** The greatest element, or `None` for no elements: SQL's `max`. */
  function MaxOf(xs: seq<nat>): Option<nat>
    decreases |xs|
  {
    if xs == [] then None
    else match MaxOf(xs[..|xs| - 1])
      case None => Some(xs[|xs| - 1])
      case Some(m) => Some(if m >= xs[|xs| - 1] then m else xs[|xs| - 1])
  }

  /** `max` is absent exactly for no elements, is one of the elements, and bounds them all. */
  lemma {:induction false} MaxOfSpec(xs: seq<nat>)
    ensures MaxOf(xs).None? <==> xs == []
    ensures MaxOf(xs).Some? ==> MaxOf(xs).value in xs
    ensures MaxOf(xs).Some? ==> forall i :: 0 <= i < |xs| ==> xs[i] <= MaxOf(xs).value
    decreases |xs|
  {
    if xs != [] {
      var init := xs[..|xs| - 1];
      MaxOfSpec(init);
      assert xs == init + [xs[|xs| - 1]];
      assert forall i :: 0 <= i < |init| ==> xs[i] == init[i];
    }
  }

  /** The InvoiceID column of the invoices with waybill `w`, in row order. */
  function InvoiceIdsFor(invoices: seq<Invoice>, w: string): seq<nat>
    decreases |invoices|
  {
    if invoices == [] then []
    else
      var last := invoices[|invoices| - 1];
      InvoiceIdsFor(invoices[..|invoices| - 1], w) + (if last.waybill == w then [last.id] else [])
  }

  /** The LineItemID column of the line items of invoice `invoiceId`, in row order. */
  function LineItemIdsFor(items: seq<LineItem>, invoiceId: nat): seq<nat>
    decreases |items|
  {
    if items == [] then []
    else
      var last := items[|items| - 1];
      LineItemIdsFor(items[..|items| - 1], invoiceId) + (if last.invoiceId == invoiceId then [last.id] else [])
  }

  /** The query returns exactly the identifiers of the rows that carry the waybill. */
  lemma {:induction false} InvoiceIdsForSpec(invoices: seq<Invoice>, w: string)
    ensures forall x :: x in InvoiceIdsFor(invoices, w) <==>
      exists i :: 0 <= i < |invoices| && invoices[i].waybill == w && invoices[i].id == x
    ensures |InvoiceIdsFor(invoices, w)| == CountWaybill(invoices, w)
    decreases |invoices|
  {
    if invoices != [] {
      var init := invoices[..|invoices| - 1];
      InvoiceIdsForSpec(init, w);
      assert forall i :: 0 <= i < |init| ==> init[i] == invoices[i];
    }
  }

  /** The query returns exactly the identifiers of the rows of that invoice. */
  lemma {:induction false} LineItemIdsForSpec(items: seq<LineItem>, invoiceId: nat)
    ensures forall x :: x in LineItemIdsFor(items, invoiceId) <==>
      exists i :: 0 <= i < |items| && items[i].invoiceId == invoiceId && items[i].id == x
    decreases |items|
  {
    if items != [] {
      var init := items[..|items| - 1];
      LineItemIdsForSpec(init, invoiceId);
      assert forall i :: 0 <= i < |init| ==> init[i] == items[i];
    }
  }

  /** `SELECT max(InvoiceID) FROM Invoices WHERE WaybillNumber = w`. */
  function MaxInvoiceId(invoices: seq<Invoice>, w: string): Option<nat> {
    MaxOf(InvoiceIdsFor(invoices, w))
  }

  /** `SELECT max(LineItemID) FROM InvoiceLineItems WHERE InvoiceID = invoiceId`. */
  function MaxLineItemId(items: seq<LineItem>, invoiceId: nat): Option<nat> {
    MaxOf(LineItemIdsFor(items, invoiceId))
  }

  /** Right after a row is appended, its key's max-id query finds something. */
  lemma MaxInvoiceIdAfterAppend(invoices: seq<Invoice>, row: Invoice)
    ensures MaxInvoiceId(invoices + [row], row.waybill).Some?
  {
    assert (invoices + [row])[..|invoices|] == invoices;
  }

  lemma MaxLineItemIdAfterAppend(items: seq<LineItem>, row: LineItem)
    ensures MaxLineItemId(items + [row], row.invoiceId).Some?
  {
    assert (items + [row])[..|items|] == items;
  }

  /** The first vendor named exactly `name`: `SELECT ... FROM Vendors WHERE VendorName = name`. */
  function FindVendor(vendors: seq<Vendor>, name: string): (r: Option<nat>)
    ensures r.None? <==> forall i :: 0 <= i < |vendors| ==> vendors[i].name != name
    ensures r.Some? ==> r.value < |vendors| && vendors[r.value].name == name
    ensures r.Some? ==> forall j :: 0 <= j < r.value ==> vendors[j].name != name
    decreases |vendors|
  {
    if vendors == [] then None
    else if vendors[0].name == name then Some(0)
    else match FindVendor(vendors[1..], name)
      case None => None
      case Some(k) => Some(k + 1)
  }

  /** The first purchase order of vendor `vendorId` for exactly `description`.
      A missing description is SQL NULL, which equals nothing. */
  function FindOrder(orders: seq<PurchaseOrder>, vendorId: nat, description: Option<string>): (r: Option<nat>)
    ensures r.None? <==> (description.None?
      || forall i :: 0 <= i < |orders| ==> !(orders[i].vendorId == vendorId && orders[i].description == description.value))
    ensures r.Some? ==> (description.Some? && r.value < |orders|
      && orders[r.value].vendorId == vendorId && orders[r.value].description == description.value)
    ensures r.Some? ==> forall j :: 0 <= j < r.value ==> !(orders[j].vendorId == vendorId && orders[j].description == description.value)
    decreases |orders|
  {
    if description.None? || orders == [] then None
    else if orders[0].vendorId == vendorId && orders[0].description == description.value then Some(0)
    else match FindOrder(orders[1..], vendorId, description)
      case None => None
      case Some(k) => Some(k + 1)
  }

  /** Some receipt is keyed by purchase order `poId` and waybill `w`. */
  predicate HasReceipt(receipts: seq<DeliveryReceipt>, poId: nat, w: string) {
    exists i :: 0 <= i < |receipts| && receipts[i].poId == poId && receipts[i].waybill == w
  }

  /** `SELECT COUNT(*) FROM DeliveryReceipts WHERE POID = poId AND WaybillNumber = w`. */
  function ReceiptCount(receipts: seq<DeliveryReceipt>, poId: nat, w: string): (n: nat)
    ensures n > 0 <==> HasReceipt(receipts, poId, w)
    ensures n <= |receipts|
    decreases |receipts|
  {
    if receipts == [] then 0
    else
      var init := receipts[..|receipts| - 1];
      assert forall i :: 0 <= i < |init| ==> init[i] == receipts[i];
      var last := receipts[|receipts| - 1];
      ReceiptCount(init, poId, w) + (if last.poId == poId && last.waybill == w then 1 else 0)
  }

  // ---------------------------------------------------------------------------
  // Invariants

  /** Every invoice identifier is below `bound`. */
  predicate InvoiceIdsBelow(invoices: seq<Invoice>, bound: nat)
    decreases |invoices|
  {
    invoices == [] ||
    (invoices[|invoices| - 1].id < bound && InvoiceIdsBelow(invoices[..|invoices| - 1], bound))
  }

  /** Every line-item identifier is below `bound`. */
  predicate LineItemIdsBelow(items: seq<LineItem>, bound: nat)
    decreases |items|
  {
    items == [] ||
    (items[|items| - 1].id < bound && LineItemIdsBelow(items[..|items| - 1], bound))
  }

  lemma {:induction false} InvoiceIdsBelowAll(invoices: seq<Invoice>, bound: nat)
    ensures InvoiceIdsBelow(invoices, bound) <==> forall i :: 0 <= i < |invoices| ==> invoices[i].id < bound
    decreases |invoices|
  {
    if invoices != [] {
      var init := invoices[..|invoices| - 1];
      InvoiceIdsBelowAll(init, bound);
      assert forall i :: 0 <= i < |init| ==> init[i] == invoices[i];
    }
  }

  lemma {:induction false} LineItemIdsBelowAll(items: seq<LineItem>, bound: nat)
    ensures LineItemIdsBelow(items, bound) <==> forall i :: 0 <= i < |items| ==> items[i].id < bound
    decreases |items|
  {
    if items != [] {
      var init := items[..|items| - 1];
      LineItemIdsBelowAll(init, bound);
      assert forall i :: 0 <= i < |init| ==> init[i] == items[i];
    }
  }

  /** Appending a row below a raised bound keeps every identifier below it. */
  lemma InvoiceIdsBelowAppend(invoices: seq<Invoice>, row: Invoice, bound: nat, raised: nat)
    requires InvoiceIdsBelow(invoices, bound) && bound <= raised && row.id < raised
    ensures InvoiceIdsBelow(invoices + [row], raised)
  {
    InvoiceIdsBelowAll(invoices, bound);
    InvoiceIdsBelowAll(invoices, raised);
    assert (invoices + [row])[..|invoices|] == invoices;
  }

  lemma LineItemIdsBelowAppend(items: seq<LineItem>, row: LineItem, bound: nat, raised: nat)
    requires LineItemIdsBelow(items, bound) && bound <= raised && row.id < raised
    ensures LineItemIdsBelow(items + [row], raised)
  {
    LineItemIdsBelowAll(items, bound);
    LineItemIdsBelowAll(items, raised);
    assert (items + [row])[..|items|] == items;
  }

  /** Every stored identifier is below its counter, so the next row's identifier is the greatest. */
  predicate IdentityOk(s: Store) {
    && InvoiceIdsBelow(s.invoices, s.nextInvoiceId)
    && LineItemIdsBelow(s.lineItems, s.nextLineItemId)
  }

  /** No two invoices share a waybill. */
  predicate WaybillsUnique(invoices: seq<Invoice>) {
    forall i, j :: 0 <= i < j < |invoices| ==> invoices[i].waybill != invoices[j].waybill
  }

  /** No two purchase orders share an identifier. */
  predicate OrderIdsUnique(orders: seq<PurchaseOrder>) {
    forall i, j :: 0 <= i < j < |orders| ==> orders[i].id != orders[j].id
  }

  /** No two receipts share a (purchase order, waybill) key. */
  predicate ReceiptsUnique(receipts: seq<DeliveryReceipt>) {
    forall i, j :: 0 <= i < j < |receipts| ==>
      receipts[i].poId != receipts[j].poId || receipts[i].waybill != receipts[j].waybill
  }

  predicate Consistent(s: Store) {
    && IdentityOk(s)
    && WaybillsUnique(s.invoices)
    && OrderIdsUnique(s.purchaseOrders)
    && ReceiptsUnique(s.receipts)
  }

  /** Under unique waybills, a waybill is carried by at most one invoice. */
  lemma {:induction false} UniqueWaybillCount(invoices: seq<Invoice>, w: string)
    requires WaybillsUnique(invoices)
    ensures CountWaybill(invoices, w) <= 1
    decreases |invoices|
  {
    if invoices != [] {
      var init := invoices[..|invoices| - 1];
      assert WaybillsUnique(init);
      UniqueWaybillCount(init, w);
    }
  }

  /** The max-id query for a waybill carried by no earlier invoice returns the row just appended. */
  lemma MaxInvoiceIdOfNewRow(invoices: seq<Invoice>, row: Invoice)
    requires !HasWaybill(invoices, row.waybill)
    ensures MaxInvoiceId(invoices + [row], row.waybill) == Some(row.id)
  {
    assert (invoices + [row])[..|invoices|] == invoices;
    InvoiceIdsForSpec(invoices, row.waybill);
    assert InvoiceIdsFor(invoices, row.waybill) == [];
    assert InvoiceIdsFor(invoices + [row], row.waybill) == [row.id];
    var single: seq<nat> := [row.id];
    assert single[..0] == [];
    assert MaxOf(single[..0]) == None;
    assert MaxOf(single) == Some(row.id);
  }

  /** The max-id query for an invoice returns the line item just appended when
      its identifier exceeds every stored one, whatever earlier rows that
      invoice already has. */
  lemma MaxLineItemIdOfNewRow(items: seq<LineItem>, row: LineItem)
    requires forall i :: 0 <= i < |items| ==> items[i].id < row.id
    ensures MaxLineItemId(items + [row], row.invoiceId) == Some(row.id)
  {
    assert (items + [row])[..|items|] == items;
    var earlier := LineItemIdsFor(items, row.invoiceId);
    assert LineItemIdsFor(items + [row], row.invoiceId) == earlier + [row.id];
    LineItemIdsForSpec(items, row.invoiceId);
    MaxOfSpec(earlier);
    if MaxOf(earlier).Some? {
      assert MaxOf(earlier).value in earlier;
    }
  }

  // ---------------------------------------------------------------------------
  // Change shapes

  /** Table `b` is table `a` with rows only appended. */
  predicate Extends<T(==)>(a: seq<T>, b: seq<T>) {
    |a| <= |b| && b[..|a|] == a
  }

  lemma ExtendsTransitive<T>(a: seq<T>, b: seq<T>, c: seq<T>)
    requires Extends(a, b) && Extends(b, c)
    ensures Extends(a, c)
  {
    assert c[..|a|] == c[..|b|][..|a|];
  }

  /** Orders that agree in everything but their received quantity. */
  predicate SameOrdersButReceived(a: seq<PurchaseOrder>, b: seq<PurchaseOrder>) {
    && |a| == |b|
    && forall i :: 0 <= i < |a| ==>
         a[i].id == b[i].id && a[i].vendorId == b[i].vendorId
         && a[i].description == b[i].description && a[i].ordered == b[i].ordered
  }

  lemma SameOrdersTransitive(a: seq<PurchaseOrder>, b: seq<PurchaseOrder>, c: seq<PurchaseOrder>)
    requires SameOrdersButReceived(a, b) && SameOrdersButReceived(b, c)
    ensures SameOrdersButReceived(a, c)
  {
  }

  /** Orders that differ only in received quantities keep their identifiers. */
  lemma SameOrdersKeepIds(a: seq<PurchaseOrder>, b: seq<PurchaseOrder>)
    requires OrderIdsUnique(a) && SameOrdersButReceived(a, b)
    ensures OrderIdsUnique(b)
  {
  }

  /** Table `b` is table `a` with no received quantity lowered. */
  predicate ReceivedGrows(a: seq<PurchaseOrder>, b: seq<PurchaseOrder>) {
    && SameOrdersButReceived(a, b)
    && forall i :: 0 <= i < |a| ==> a[i].received <= b[i].received
  }

  lemma ReceivedGrowsRefl(a: seq<PurchaseOrder>)
    ensures ReceivedGrows(a, a)
  {
  }

  lemma ReceivedGrowsTransitive(a: seq<PurchaseOrder>, b: seq<PurchaseOrder>, c: seq<PurchaseOrder>)
    requires ReceivedGrows(a, b) && ReceivedGrows(b, c)
    ensures ReceivedGrows(a, c)
  {
  }

}
