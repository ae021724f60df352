/** Ingestion of one extracted invoice: the duplicate guard on the waybill,
    the header row, then for each line item in order its row, its payment
    reminder and its purchase-order reconciliation. An `Err` result is an
    exception; nothing is committed then, so the caller keeps its store. */
module Ingestion {
  import opened Results
  import opened Dates
  import opened DateText
  import opened Escaping
  import opened Tables
  import opened Reminders
  import opened Deliveries

  datatype ItemRecord = ItemRecord(description: Option<string>, quantity: int, unitPrice: Amount, total: Amount)

  datatype InvoiceRecord = InvoiceRecord(
    waybill: string,
    exportDate: string,
    billToName: string,
    billToAddress: string,
    shipToName: string,
    shipToAddress: string,
    items: seq<ItemRecord>)

  /** `Skipped` is the duplicate advisory with flag False; `Inserted` carries
      the last reminder note (None for an invoice without line items) with flag True. */
  datatype Reply = Skipped(waybill: string) | Inserted(body: Option<ReminderNote>)

  function HeaderRow(id: nat, rec: InvoiceRecord): Invoice {
    Invoice(id, rec.waybill, rec.exportDate, rec.billToName, rec.billToAddress, rec.shipToName, rec.shipToAddress)
  }

  function LineRow(id: nat, invoiceId: nat, item: ItemRecord): LineItem {
    LineItem(id, invoiceId, StoredDescription(item.description), item.quantity, item.unitPrice, item.total)
  }

  /** The rows a run over `items` appends, numbered from `start`. */
  function LineRows(start: nat, invoiceId: nat, items: seq<ItemRecord>): (rows: seq<LineItem>)
    ensures |rows| == |items|
    decreases |items|
  {
    if items == [] then [] else [LineRow(start, invoiceId, items[0])] + LineRows(start + 1, invoiceId, items[1..])
  }

  /** Row `k` of a run is input item `k`, with identifier `start + k`. */
  lemma {:induction false} LineRowsAt(start: nat, invoiceId: nat, items: seq<ItemRecord>, k: nat)
    requires k < |items|
    ensures LineRows(start, invoiceId, items)[k] == LineRow(start + k, invoiceId, items[k])
    decreases k
  {
    if k > 0 {
      LineRowsAt(start + 1, invoiceId, items[1..], k - 1);
    }
  }

  /** Writes the header row and recovers its identifier with the max-id query
      on its waybill. */
  function InsertHeader(s: Store, rec: InvoiceRecord): (r: (Store, nat))
    ensures r.0 == s.(invoices := s.invoices + [HeaderRow(s.nextInvoiceId, rec)], nextInvoiceId := s.nextInvoiceId + 1)
    ensures !HasWaybill(s.invoices, rec.waybill) ==> r.1 == s.nextInvoiceId
    ensures MaxInvoiceId(r.0.invoices, rec.waybill) == Some(r.1)
  {
    var row := HeaderRow(s.nextInvoiceId, rec);
    var invoices := s.invoices + [row];
    MaxInvoiceIdAfterAppend(s.invoices, row);
    var id := MaxInvoiceId(invoices, rec.waybill).value;
    assert !HasWaybill(s.invoices, rec.waybill) ==> id == s.nextInvoiceId by {
      if !HasWaybill(s.invoices, rec.waybill) {
        MaxInvoiceIdOfNewRow(s.invoices, row);
      }
    }
    (s.(invoices := invoices, nextInvoiceId := s.nextInvoiceId + 1), id)
  }

  /** Writes one line-item row and recovers its identifier with the max-id
      query on its invoice. */
  function InsertLineItem(s: Store, invoiceId: nat, item: ItemRecord): (r: (Store, nat))
    ensures r.0 == s.(lineItems := s.lineItems + [LineRow(s.nextLineItemId, invoiceId, item)],
                      nextLineItemId := s.nextLineItemId + 1)
    ensures MaxLineItemId(r.0.lineItems, invoiceId) == Some(r.1)
    ensures IdentityOk(s) ==> r.1 == s.nextLineItemId && IdentityOk(r.0)
  {
    var row := LineRow(s.nextLineItemId, invoiceId, item);
    var items := s.lineItems + [row];
    MaxLineItemIdAfterAppend(s.lineItems, row);
    var id := MaxLineItemId(items, invoiceId).value;
    var s' := s.(lineItems := items, nextLineItemId := s.nextLineItemId + 1);
    assert IdentityOk(s) ==> id == s.nextLineItemId && IdentityOk(s') by {
      if IdentityOk(s) {
        LineItemIdsBelowAll(s.lineItems, s.nextLineItemId);
        MaxLineItemIdOfNewRow(s.lineItems, row);
        LineItemIdsBelowAppend(s.lineItems, row, s.nextLineItemId, s.nextLineItemId + 1);
      }
    }
    (s', id)
  }

  /** The invoice date reads, and a known vendor's due date stays within years 1 to 9999. */
  predicate DatesOk(vendors: seq<Vendor>, rec: InvoiceRecord) {
    && ParseDate(rec.exportDate).Ok?
    && (FindVendor(vendors, rec.billToName).Some? ==>
          AddDays(ParseDate(rec.exportDate).value, vendors[FindVendor(vendors, rec.billToName).value].creditDays).Ok?)
  }

  /** What the reminder step does for every line item of one invoice: an
      advisory for an unknown vendor, or a reminder from vendor `vendorId`
      dated `date` and due on `due`. */
  datatype ReminderPlan = Advise | Remind(vendorId: nat, date: Date, due: Date)

  /** `plan` is what the reminder step does for `rec` against `vendors`: the
      date reads, and the plan follows the first vendor of that name. */
  predicate Plans(vendors: seq<Vendor>, rec: InvoiceRecord, plan: ReminderPlan) {
    && ParseDate(rec.exportDate).Ok?
    && match FindVendor(vendors, rec.billToName)
       case None => plan == Advise
       case Some(k) =>
         && plan.Remind?
         && plan.vendorId == vendors[k].id
         && plan.date == ParseDate(rec.exportDate).value
         && AddDays(plan.date, vendors[k].creditDays) == Ok(plan.due)
  }

  /** The plan for `rec`, when the dates work out. */
  function PlanFor(vendors: seq<Vendor>, rec: InvoiceRecord): (plan: ReminderPlan)
    requires DatesOk(vendors, rec)
    ensures Plans(vendors, rec, plan)
  {
    var date := ParseDate(rec.exportDate).value;
    match FindVendor(vendors, rec.billToName)
    case None => Advise
    case Some(k) => Remind(vendors[k].id, date, AddDays(date, vendors[k].creditDays).value)
  }

  /** There is a plan exactly when the dates work out, and there is only one. */
  lemma PlansExactly(vendors: seq<Vendor>, rec: InvoiceRecord, plan: ReminderPlan)
    ensures Plans(vendors, rec, plan) <==> DatesOk(vendors, rec) && plan == PlanFor(vendors, rec)
  {
  }

  /** The note the plan reports for the line item with identifier `lineItemId`. */
  function PlanNote(plan: ReminderPlan, rec: InvoiceRecord, lineItemId: nat, item: ItemRecord): ReminderNote {
    match plan
    case Advise => NoVendor(rec.billToName)
    case Remind(vendorId, date, due) => Created(PaymentReminder(vendorId, lineItemId, date, due, rec.waybill, item.total))
  }

  /** The reminders the plan writes for `items`, identified from `start`:
      none for an advisory, otherwise one per line item, in order. */
  function PlanReminders(plan: ReminderPlan, rec: InvoiceRecord, start: nat, items: seq<ItemRecord>)
    : (rows: seq<PaymentReminder>)
    ensures |rows| == (if plan.Advise? then 0 else |items|)
    decreases |items|
  {
    if plan.Advise? || items == [] then []
    else [PlanNote(plan, rec, start, items[0]).reminder] + PlanReminders(plan, rec, start + 1, items[1..])
  }

  /** Reminder `k` of a run is for input item `k`, with line-item identifier `start + k`. */
  lemma {:induction false} PlanRemindersAt(plan: ReminderPlan, rec: InvoiceRecord, start: nat, items: seq<ItemRecord>, k: nat)
    requires plan.Remind? && k < |items|
    ensures PlanReminders(plan, rec, start, items)[k]
         == PaymentReminder(plan.vendorId, start + k, plan.date, plan.due, rec.waybill, items[k].total)
    decreases k
  {
    if k > 0 {
      PlanRemindersAt(plan, rec, start + 1, items[1..], k - 1);
    }
  }

  lemma PlanRemindersSplit(plan: ReminderPlan, rec: InvoiceRecord, start: nat, items: seq<ItemRecord>)
    requires items != []
    ensures PlanReminders(plan, rec, start, items)
         == PlanReminders(plan, rec, start, [items[0]]) + PlanReminders(plan, rec, start + 1, items[1..])
  {
    assert [items[0]][1..] == [];
  }

  /** The body a run over `items` ends with under a plan. */
  function PlannedBody(plan: ReminderPlan, rec: InvoiceRecord, start: nat, items: seq<ItemRecord>, body: Option<ReminderNote>)
    : Option<ReminderNote>
    decreases |items|
  {
    if items == [] then body
    else PlannedBody(plan, rec, start + 1, items[1..], Some(PlanNote(plan, rec, start, items[0])))
  }

  /** The plan's note for the last of `items`, numbered from `start`, or `body` when there are none. */
  function LastNote(plan: ReminderPlan, rec: InvoiceRecord, start: nat, items: seq<ItemRecord>, body: Option<ReminderNote>)
    : Option<ReminderNote>
  {
    if items == [] then body else Some(PlanNote(plan, rec, start + |items| - 1, items[|items| - 1]))
  }

  /** That body is the plan's note for the last line item, or the starting body when there are none. */
  lemma {:induction false} PlannedBodyIsLast(
    plan: ReminderPlan, rec: InvoiceRecord, start: nat, items: seq<ItemRecord>, body: Option<ReminderNote>)
    ensures PlannedBody(plan, rec, start, items, body) == LastNote(plan, rec, start, items, body)
    decreases |items|
  {
    if items != [] {
      PlannedBodyIsLast(plan, rec, start + 1, items[1..], Some(PlanNote(plan, rec, start, items[0])));
      if |items| > 1 {
        assert items[1..][|items| - 2] == items[|items| - 1];
      }
    }
  }

  /** What one line item yields: the store after its row, reminder and
      reconciliation with its reminder note, or the date error that aborts
      the whole invoice. */
  type StepResult = Result<(Store, ReminderNote), DateError>

  /** A successful line-item step for invoice `invoiceId` wrote the item's row
      with the next identifier; beyond that it only appended reminders and
      receipts and changed received quantities. */
  predicate StepFrame(s: Store, invoiceId: nat, item: ItemRecord, r: StepResult) {
    r.Ok? ==>
      && r.value.0.invoices == s.invoices
      && r.value.0.vendors == s.vendors
      && r.value.0.nextInvoiceId == s.nextInvoiceId
      && r.value.0.nextLineItemId == s.nextLineItemId + 1
      && r.value.0.lineItems == s.lineItems + [LineRow(s.nextLineItemId, invoiceId, item)]
      && SameOrdersButReceived(s.purchaseOrders, r.value.0.purchaseOrders)
      && Extends(s.reminders, r.value.0.reminders)
      && Extends(s.receipts, r.value.0.receipts)
  }

  /** One line item: its row, its reminder, its reconciliation. */
  function ProcessItem(s: Store, rec: InvoiceRecord, invoiceId: nat, item: ItemRecord): (r: StepResult)
    ensures StepFrame(s, invoiceId, item, r)
  {
    var (s1, lineId) := InsertLineItem(s, invoiceId, item);
    var rem :- InsertPaymentReminder(s1, rec.billToName, rec.exportDate, item.total, rec.waybill, lineId);
    match ReconcileDelivery(rem.0, rec.billToName, item.description, item.quantity, rec.waybill, rec.exportDate)
    case Err(e) => Err(e)
    case Ok(del) =>
      assert SameOrdersButReceived(s.purchaseOrders, del.0.purchaseOrders);
      Ok((del.0, rem.1))
  }

  /** The line-item step of one invoice. */
  function ItemStep(rec: InvoiceRecord, invoiceId: nat): (Store, ItemRecord) -> StepResult {
    (t, item) => ProcessItem(t, rec, invoiceId, item)
  }

  /** The loop over the line items: runs `step` on each in order, stopping at
      the first error; the body is the last item's note. */
  function ForEachItem(
    step: (Store, ItemRecord) -> StepResult, s: Store, items: seq<ItemRecord>, body: Option<ReminderNote>)
    : Result<(Store, Option<ReminderNote>), DateError>
    decreases |items|
  {
    if items == [] then Ok((s, body))
    else
      match step(s, items[0])
      case Err(e) => Err(e)
      case Ok(next) => ForEachItem(step, next.0, items[1..], Some(next.1))
  }

  // ---------------------------------------------------------------------------
  // The loop, for any step with the properties the line-item step has

  ghost predicate FramedStep(step: (Store, ItemRecord) -> StepResult, invoiceId: nat) {
    forall t: Store, item: ItemRecord :: StepFrame(t, invoiceId, item, step(t, item))
  }

  /** On stores with vendor table `vendors`, `step` succeeds exactly when `ok` holds. */
  ghost predicate DecidedStep(step: (Store, ItemRecord) -> StepResult, vendors: seq<Vendor>, ok: bool) {
    forall t: Store, item: ItemRecord :: t.vendors == vendors ==> (step(t, item).Ok? <==> ok)
  }

  /** A step that follows `plan`: it succeeds, keeps the identity counters
      ahead of the rows, reports the plan's note for the next line-item
      identifier and appends the plan's reminder for it. */
  predicate StepFollowsPlan(t: Store, item: ItemRecord, rec: InvoiceRecord, plan: ReminderPlan, r: StepResult) {
    && r.Ok?
    && r.value.0.vendors == t.vendors
    && r.value.0.nextLineItemId == t.nextLineItemId + 1
    && IdentityOk(r.value.0)
    && r.value.1 == PlanNote(plan, rec, t.nextLineItemId, item)
    && r.value.0.reminders == t.reminders + PlanReminders(plan, rec, t.nextLineItemId, [item])
  }

  ghost predicate PlannedStep(step: (Store, ItemRecord) -> StepResult, vendors: seq<Vendor>, rec: InvoiceRecord, plan: ReminderPlan) {
    forall t: Store, item: ItemRecord :: IdentityOk(t) && t.vendors == vendors ==> StepFollowsPlan(t, item, rec, plan, step(t, item))
  }

  ghost predicate ConsistentStep(step: (Store, ItemRecord) -> StepResult) {
    forall t: Store, item: ItemRecord :: Consistent(t) && step(t, item).Ok? ==> Consistent(step(t, item).value.0)
  }

  /** A delivery of a non-negative quantity never lowers a received quantity. */
  ghost predicate MonotoneStep(step: (Store, ItemRecord) -> StepResult) {
    forall t: Store, item: ItemRecord :: OrderIdsUnique(t.purchaseOrders) && item.quantity >= 0 && step(t, item).Ok? ==>
      ReceivedGrows(t.purchaseOrders, step(t, item).value.0.purchaseOrders)
  }

  /** A run keeps invoices and vendors, writes one row per line item in input
      order with consecutive identifiers, changes purchase orders only in their
      received quantities, and only appends reminders and receipts. */
  lemma {:induction false} ForEachItemFrame(
    step: (Store, ItemRecord) -> StepResult, invoiceId: nat, s: Store, items: seq<ItemRecord>, body: Option<ReminderNote>)
    requires FramedStep(step, invoiceId)
    requires ForEachItem(step, s, items, body).Ok?
    ensures var s' := ForEachItem(step, s, items, body).value.0;
      && s'.invoices == s.invoices
      && s'.vendors == s.vendors
      && s'.nextInvoiceId == s.nextInvoiceId
      && s'.nextLineItemId == s.nextLineItemId + |items|
      && s'.lineItems == s.lineItems + LineRows(s.nextLineItemId, invoiceId, items)
      && SameOrdersButReceived(s.purchaseOrders, s'.purchaseOrders)
      && Extends(s.reminders, s'.reminders)
      && Extends(s.receipts, s'.receipts)
    decreases |items|
  {
    if items == [] {
      assert s.lineItems + [] == s.lineItems;
    } else {
      var next := step(s, items[0]).value;
      assert StepFrame(s, invoiceId, items[0], step(s, items[0]));
      ForEachItemFrame(step, invoiceId, next.0, items[1..], Some(next.1));
      var s' := ForEachItem(step, s, items, body).value.0;
      var first := LineRow(s.nextLineItemId, invoiceId, items[0]);
      var rows := LineRows(s.nextLineItemId + 1, invoiceId, items[1..]);
      assert (s.lineItems + [first]) + rows == s.lineItems + ([first] + rows);
      SameOrdersTransitive(s.purchaseOrders, next.0.purchaseOrders, s'.purchaseOrders);
      ExtendsTransitive(s.reminders, next.0.reminders, s'.reminders);
      ExtendsTransitive(s.receipts, next.0.receipts, s'.receipts);
    }
  }

  /** A run fails exactly when it has a line item and the step fails. */
  lemma {:induction false} ForEachItemSucceeds(
    step: (Store, ItemRecord) -> StepResult, invoiceId: nat, vendors: seq<Vendor>, ok: bool,
    s: Store, items: seq<ItemRecord>, body: Option<ReminderNote>)
    requires FramedStep(step, invoiceId) && DecidedStep(step, vendors, ok) && s.vendors == vendors
    ensures ForEachItem(step, s, items, body).Ok? <==> items == [] || ok
    decreases |items|
  {
    if items != [] && ok {
      var next := step(s, items[0]).value;
      assert StepFrame(s, invoiceId, items[0], step(s, items[0]));
      ForEachItemSucceeds(step, invoiceId, vendors, ok, next.0, items[1..], Some(next.1));
    }
  }

  /** Under a plan a run succeeds, appends the plan's reminders, and ends with the planned body. */
  lemma {:induction false} ForEachItemFollowsPlan(
    step: (Store, ItemRecord) -> StepResult, vendors: seq<Vendor>, rec: InvoiceRecord, plan: ReminderPlan,
    s: Store, items: seq<ItemRecord>, body: Option<ReminderNote>)
    requires PlannedStep(step, vendors, rec, plan)
    requires IdentityOk(s) && s.vendors == vendors
    ensures ForEachItem(step, s, items, body).Ok?
    ensures ForEachItem(step, s, items, body).value.0.reminders
         == s.reminders + PlanReminders(plan, rec, s.nextLineItemId, items)
    ensures ForEachItem(step, s, items, body).value.1 == PlannedBody(plan, rec, s.nextLineItemId, items, body)
    decreases |items|
  {
    if items == [] {
      assert s.reminders + [] == s.reminders;
    } else {
      var next := step(s, items[0]).value;
      assert StepFollowsPlan(s, items[0], rec, plan, step(s, items[0]));
      ForEachItemFollowsPlan(step, vendors, rec, plan, next.0, items[1..], Some(next.1));
      assert ForEachItem(step, s, items, body) == ForEachItem(step, next.0, items[1..], Some(next.1));
      var first := PlanReminders(plan, rec, s.nextLineItemId, [items[0]]);
      var rest := PlanReminders(plan, rec, s.nextLineItemId + 1, items[1..]);
      PlanRemindersSplit(plan, rec, s.nextLineItemId, items);
      assert (s.reminders + first) + rest == s.reminders + (first + rest);
    }
  }

  /** A run keeps the store's keys unique. */
  lemma {:induction false} ForEachItemKeepsConsistent(
    step: (Store, ItemRecord) -> StepResult, s: Store, items: seq<ItemRecord>, body: Option<ReminderNote>)
    requires ConsistentStep(step) && Consistent(s)
    requires ForEachItem(step, s, items, body).Ok?
    ensures Consistent(ForEachItem(step, s, items, body).value.0)
    decreases |items|
  {
    if items != [] {
      var next := step(s, items[0]).value;
      ForEachItemKeepsConsistent(step, next.0, items[1..], Some(next.1));
    }
  }

  /** A run over non-negative quantities never lowers a received quantity. */
  lemma {:induction false} ForEachItemReceivedGrows(
    step: (Store, ItemRecord) -> StepResult, invoiceId: nat, s: Store, items: seq<ItemRecord>, body: Option<ReminderNote>)
    requires FramedStep(step, invoiceId) && MonotoneStep(step)
    requires OrderIdsUnique(s.purchaseOrders)
    requires forall k :: 0 <= k < |items| ==> items[k].quantity >= 0
    requires ForEachItem(step, s, items, body).Ok?
    ensures ReceivedGrows(s.purchaseOrders, ForEachItem(step, s, items, body).value.0.purchaseOrders)
    decreases |items|
  {
    if items == [] {
      ReceivedGrowsRefl(s.purchaseOrders);
    } else {
      var next := step(s, items[0]).value;
      assert StepFrame(s, invoiceId, items[0], step(s, items[0]));
      SameOrdersKeepIds(s.purchaseOrders, next.0.purchaseOrders);
      assert forall k :: 0 <= k < |items[1..]| ==> items[1..][k].quantity >= 0 by {
        forall k | 0 <= k < |items[1..]| ensures items[1..][k].quantity >= 0 {
          assert items[1..][k] == items[k + 1];
        }
      }
      ForEachItemReceivedGrows(step, invoiceId, next.0, items[1..], Some(next.1));
      ReceivedGrowsTransitive(
        s.purchaseOrders, next.0.purchaseOrders, ForEachItem(step, s, items, body).value.0.purchaseOrders);
    }
  }

  /** A run is its first `k` items followed by the rest, started from where those left off. */
  lemma {:induction false} ForEachItemSplit(
    step: (Store, ItemRecord) -> StepResult, s: Store, items: seq<ItemRecord>, body: Option<ReminderNote>, k: nat)
    requires k <= |items|
    requires ForEachItem(step, s, items, body).Ok?
    ensures ForEachItem(step, s, items[..k], body).Ok?
    ensures var mid := ForEachItem(step, s, items[..k], body).value;
      ForEachItem(step, s, items, body) == ForEachItem(step, mid.0, items[k..], mid.1)
    decreases k
  {
    if k == 0 {
      assert items[..0] == [] && items[0..] == items;
    } else {
      var first := step(s, items[0]);
      assert first.Ok? && ForEachItem(step, s, items, body) == ForEachItem(step, first.value.0, items[1..], Some(first.value.1));
      var next := first.value;
      var prefix := items[..k];
      assert prefix[0] == items[0] && prefix[1..] == items[1..][..k - 1];
      assert ForEachItem(step, s, prefix, body) == ForEachItem(step, next.0, prefix[1..], Some(next.1));
      ForEachItemSplit(step, next.0, items[1..], Some(next.1), k - 1);
      assert items[1..][k - 1..] == items[k..];
    }
  }

  /** A run over one line item is that item's step. */
  lemma ForEachSingleItem(
    step: (Store, ItemRecord) -> StepResult, s: Store, items: seq<ItemRecord>, body: Option<ReminderNote>)
    requires |items| == 1 && step(s, items[0]).Ok?
    ensures ForEachItem(step, s, items, body) == Ok((step(s, items[0]).value.0, Some(step(s, items[0]).value.1)))
  {
    assert items[1..] == [];
  }

  /** The run up to and including item `k` is the run before it followed by
      that item's step. */
  lemma ForEachItemStepAt(
    step: (Store, ItemRecord) -> StepResult, s: Store, items: seq<ItemRecord>, body: Option<ReminderNote>, k: nat)
    requires k < |items| && ForEachItem(step, s, items, body).Ok?
    ensures ForEachItem(step, s, items[..k], body).Ok?
    ensures var mid := ForEachItem(step, s, items[..k], body).value.0;
      && step(mid, items[k]).Ok?
      && ForEachItem(step, s, items[..k + 1], body).Ok?
      && ForEachItem(step, s, items[..k + 1], body).value.0 == step(mid, items[k]).value.0
  {
    ForEachItemSplit(step, s, items, body, k + 1);
    var prefix := items[..k + 1];
    ForEachItemSplit(step, s, prefix, body, k);
    assert prefix[..k] == items[..k] && prefix[k..] == [items[k]];
    var mid := ForEachItem(step, s, items[..k], body).value;
    assert ForEachItem(step, mid.0, [items[k]], mid.1).Ok?;
    ForEachSingleItem(step, mid.0, [items[k]], mid.1);
  }

  /** Between line items `k1` and `k2` of a run, the later steps keep the
      vendors and the receipts the step for `k1` left and change orders only in
      their received quantities. */
  lemma ForEachItemBetween(
    step: (Store, ItemRecord) -> StepResult, invoiceId: nat, s: Store, items: seq<ItemRecord>, body: Option<ReminderNote>,
    k1: nat, k2: nat)
    requires FramedStep(step, invoiceId)
    requires k1 < k2 <= |items|
    requires ForEachItem(step, s, items[..k2], body).Ok?
    ensures ForEachItem(step, s, items[..k1], body).Ok?
    ensures var pre := ForEachItem(step, s, items[..k1], body).value;
      && step(pre.0, items[k1]).Ok?
      && var post := step(pre.0, items[k1]).value.0;
         var mid := ForEachItem(step, s, items[..k2], body).value.0;
         && mid.vendors == post.vendors
         && SameOrdersButReceived(post.purchaseOrders, mid.purchaseOrders)
         && Extends(post.receipts, mid.receipts)
  {
    var prefix := items[..k2];
    ForEachItemSplit(step, s, prefix, body, k1);
    assert prefix[..k1] == items[..k1];
    var pre := ForEachItem(step, s, items[..k1], body).value;
    var rest := prefix[k1..];
    assert rest[0] == items[k1];
    var next := step(pre.0, items[k1]).value;
    ForEachItemFrame(step, invoiceId, next.0, rest[1..], Some(next.1));
  }

  // ---------------------------------------------------------------------------
  // The line-item step has those properties

  /** One line item succeeds exactly when the dates work out. */
  lemma ProcessItemSucceeds(s: Store, rec: InvoiceRecord, invoiceId: nat, item: ItemRecord)
    ensures ProcessItem(s, rec, invoiceId, item).Ok? <==> DatesOk(s.vendors, rec)
  {
    var (s1, lineId) := InsertLineItem(s, invoiceId, item);
    InsertPaymentReminderSpec(s1, rec.billToName, rec.exportDate, item.total, rec.waybill, lineId);
    var rem := InsertPaymentReminder(s1, rec.billToName, rec.exportDate, item.total, rec.waybill, lineId);
    if rem.Ok? {
      ReconcileDeliverySpec(rem.value.0, rec.billToName, item.description, item.quantity, rec.waybill, rec.exportDate);
    }
  }

  /** A line item that goes through is reconciled against its purchase order:
      the step's receipts and orders are the delivery of the item's quantity
      under the invoice's waybill and date, applied to the store it started from. */
  lemma ProcessItemReconciles(s: Store, rec: InvoiceRecord, invoiceId: nat, item: ItemRecord)
    requires ProcessItem(s, rec, invoiceId, item).Ok?
    ensures ParseDate(rec.exportDate).Ok?
    ensures DeliveryApplied(s, rec.billToName, item.description, item.quantity, rec.waybill,
      ParseDate(rec.exportDate).value, ProcessItem(s, rec, invoiceId, item).value.0)
  {
    var (s1, lineId) := InsertLineItem(s, invoiceId, item);
    var rem := InsertPaymentReminder(s1, rec.billToName, rec.exportDate, item.total, rec.waybill, lineId).value;
    var del := ReconcileDelivery(rem.0, rec.billToName, item.description, item.quantity, rec.waybill, rec.exportDate);
    assert del.Ok? && ProcessItem(s, rec, invoiceId, item) == Ok((del.value.0, rem.1));
    ReconcileDeliveryApplies(rem.0, rec.billToName, item.description, item.quantity, rec.waybill, rec.exportDate);
    DeliveryAppliedOnTables(rem.0, s, rec.billToName, item.description, item.quantity, rec.waybill,
      ParseDate(rec.exportDate).value, del.value.0);
  }

  /** Under a plan the reminder step succeeds, reports the plan's note and
      appends the plan's reminder, if any. */
  lemma ReminderFollowsPlan(s: Store, rec: InvoiceRecord, item: ItemRecord, lineItemId: nat, plan: ReminderPlan)
    requires Plans(s.vendors, rec, plan)
    ensures var r := InsertPaymentReminder(s, rec.billToName, rec.exportDate, item.total, rec.waybill, lineItemId);
      && r.Ok?
      && r.value.1 == PlanNote(plan, rec, lineItemId, item)
      && r.value.0.reminders == s.reminders + PlanReminders(plan, rec, lineItemId, [item])
  {
    assert [item][1..] == [];
  }

  /** A line item processed under a plan takes the next identifier, keeps the
      identity counters ahead of the rows, reports the plan's note and
      appends the plan's reminder for it, if any. */
  lemma ProcessItemFollowsPlan(s: Store, rec: InvoiceRecord, invoiceId: nat, item: ItemRecord, plan: ReminderPlan)
    requires IdentityOk(s) && Plans(s.vendors, rec, plan)
    ensures StepFollowsPlan(s, item, rec, plan, ProcessItem(s, rec, invoiceId, item))
  {
    var (s1, lineId) := InsertLineItem(s, invoiceId, item);
    ReminderFollowsPlan(s1, rec, item, lineId, plan);
    var rem := InsertPaymentReminder(s1, rec.billToName, rec.exportDate, item.total, rec.waybill, lineId).value;
    var del := ReconcileDelivery(rem.0, rec.billToName, item.description, item.quantity, rec.waybill, rec.exportDate);
    assert del.Ok? by {
      ReconcileDeliverySpec(rem.0, rec.billToName, item.description, item.quantity, rec.waybill, rec.exportDate);
    }
    assert ProcessItem(s, rec, invoiceId, item) == Ok((del.value.0, rem.1));
  }

  /** A successful line item keeps the store's keys unique. */
  lemma ProcessItemKeepsConsistent(s: Store, rec: InvoiceRecord, invoiceId: nat, item: ItemRecord)
    requires Consistent(s)
    requires ProcessItem(s, rec, invoiceId, item).Ok?
    ensures Consistent(ProcessItem(s, rec, invoiceId, item).value.0)
  {
    var (s1, lineId) := InsertLineItem(s, invoiceId, item);
    var rem := InsertPaymentReminder(s1, rec.billToName, rec.exportDate, item.total, rec.waybill, lineId);
    assert Consistent(rem.value.0);
    ReconcileKeepsConsistent(rem.value.0, rec.billToName, item.description, item.quantity, rec.waybill, rec.exportDate);
  }

  /** A line item with a non-negative quantity never lowers a received quantity. */
  lemma ProcessItemReceivedGrows(s: Store, rec: InvoiceRecord, invoiceId: nat, item: ItemRecord)
    requires OrderIdsUnique(s.purchaseOrders) && item.quantity >= 0
    requires ProcessItem(s, rec, invoiceId, item).Ok?
    ensures ReceivedGrows(s.purchaseOrders, ProcessItem(s, rec, invoiceId, item).value.0.purchaseOrders)
  {
    var (s1, lineId) := InsertLineItem(s, invoiceId, item);
    var s2 := InsertPaymentReminder(s1, rec.billToName, rec.exportDate, item.total, rec.waybill, lineId).value.0;
    ReconcileDeliverySpec(s2, rec.billToName, item.description, item.quantity, rec.waybill, rec.exportDate);
    var del := ReconcileDelivery(s2, rec.billToName, item.description, item.quantity, rec.waybill, rec.exportDate);
    if del.value.1.Fulfilled? || del.value.1.PartiallyFulfilled? {
      ReconcileTouchesOneOrder(s2, rec.billToName, item.description, item.quantity, rec.waybill, rec.exportDate);
    } else {
      ReceivedGrowsRefl(s.purchaseOrders);
    }
  }

  /** Two line items of one invoice with the same description match the same
      purchase order: once the first has been reconciled, the second, on any
      store that later line items could have produced, neither records a
      receipt nor changes a received quantity. */
  lemma ProcessItemSameOrderOnce(s: Store, rec: InvoiceRecord, invoiceId: nat, item1: ItemRecord, t: Store, item2: ItemRecord)
    requires item1.description == item2.description
    requires ProcessItem(s, rec, invoiceId, item1).Ok?
    requires var s1 := ProcessItem(s, rec, invoiceId, item1).value.0;
      && t.vendors == s1.vendors
      && SameOrdersButReceived(s1.purchaseOrders, t.purchaseOrders)
      && Extends(s1.receipts, t.receipts)
    ensures var r2 := ProcessItem(t, rec, invoiceId, item2);
      r2.Ok? && r2.value.0.purchaseOrders == t.purchaseOrders && r2.value.0.receipts == t.receipts
  {
    ProcessItemSucceeds(s, rec, invoiceId, item1);
    ProcessItemSucceeds(t, rec, invoiceId, item2);
    var (s1, lineId1) := InsertLineItem(s, invoiceId, item1);
    var rem1 := InsertPaymentReminder(s1, rec.billToName, rec.exportDate, item1.total, rec.waybill, lineId1).value;
    var (t1, lineId2) := InsertLineItem(t, invoiceId, item2);
    var rem2 := InsertPaymentReminder(t1, rec.billToName, rec.exportDate, item2.total, rec.waybill, lineId2).value;
    ReconcileAgainWritesNothing(
      rem1.0, rec.billToName, item1.description, item1.quantity, rec.waybill, rec.exportDate,
      rem2.0, item2.quantity, rec.exportDate);
  }

  lemma ItemStepFramed(rec: InvoiceRecord, invoiceId: nat)
    ensures FramedStep(ItemStep(rec, invoiceId), invoiceId)
  {
    forall t: Store, item: ItemRecord ensures StepFrame(t, invoiceId, item, ItemStep(rec, invoiceId)(t, item)) {
      assert ItemStep(rec, invoiceId)(t, item) == ProcessItem(t, rec, invoiceId, item);
    }
  }

  lemma ItemStepDecided(rec: InvoiceRecord, invoiceId: nat, vendors: seq<Vendor>)
    ensures DecidedStep(ItemStep(rec, invoiceId), vendors, DatesOk(vendors, rec))
  {
    forall t: Store, item: ItemRecord | t.vendors == vendors
      ensures ItemStep(rec, invoiceId)(t, item).Ok? <==> DatesOk(vendors, rec)
    {
      ProcessItemSucceeds(t, rec, invoiceId, item);
    }
  }

  lemma ItemStepPlanned(rec: InvoiceRecord, invoiceId: nat, vendors: seq<Vendor>, plan: ReminderPlan)
    requires Plans(vendors, rec, plan)
    ensures PlannedStep(ItemStep(rec, invoiceId), vendors, rec, plan)
  {
    forall t: Store, item: ItemRecord | IdentityOk(t) && t.vendors == vendors
      ensures StepFollowsPlan(t, item, rec, plan, ItemStep(rec, invoiceId)(t, item))
    {
      ProcessItemFollowsPlan(t, rec, invoiceId, item, plan);
    }
  }

  lemma ItemStepConsistent(rec: InvoiceRecord, invoiceId: nat)
    ensures ConsistentStep(ItemStep(rec, invoiceId))
  {
    forall t: Store, item: ItemRecord | Consistent(t) && ItemStep(rec, invoiceId)(t, item).Ok?
      ensures Consistent(ItemStep(rec, invoiceId)(t, item).value.0)
    {
      ProcessItemKeepsConsistent(t, rec, invoiceId, item);
    }
  }

  lemma ItemStepMonotone(rec: InvoiceRecord, invoiceId: nat)
    ensures MonotoneStep(ItemStep(rec, invoiceId))
  {
    forall t: Store, item: ItemRecord | OrderIdsUnique(t.purchaseOrders) && item.quantity >= 0 && ItemStep(rec, invoiceId)(t, item).Ok?
      ensures ReceivedGrows(t.purchaseOrders, ItemStep(rec, invoiceId)(t, item).value.0.purchaseOrders)
    {
      ProcessItemReceivedGrows(t, rec, invoiceId, item);
    }
  }

  // ---------------------------------------------------------------------------
  // insert_invoice_to_sql

  function InsertInvoice(s: Store, rec: InvoiceRecord): (r: Result<(Store, Reply), DateError>)
    // the duplicate guard: a known waybill writes nothing
    ensures HasWaybill(s.invoices, rec.waybill) ==> r == Ok((s, Skipped(rec.waybill)))
    // a new waybill writes one header and one row per line item, in input order
    ensures !HasWaybill(s.invoices, rec.waybill) && r.Ok? ==>
      && r.value.1.Inserted?
      && r.value.0.invoices == s.invoices + [HeaderRow(s.nextInvoiceId, rec)]
      && r.value.0.nextInvoiceId == s.nextInvoiceId + 1
      && r.value.0.lineItems == s.lineItems + LineRows(s.nextLineItemId, s.nextInvoiceId, rec.items)
      && r.value.0.nextLineItemId == s.nextLineItemId + |rec.items|
      && r.value.0.vendors == s.vendors
      && SameOrdersButReceived(s.purchaseOrders, r.value.0.purchaseOrders)
      && Extends(s.reminders, r.value.0.reminders)
      && Extends(s.receipts, r.value.0.receipts)
  {
    if HasWaybill(s.invoices, rec.waybill) then Ok((s, Skipped(rec.waybill)))
    else
      var (s1, invoiceId) := InsertHeader(s, rec);
      var done :- ForEachItem(ItemStep(rec, invoiceId), s1, rec.items, None);
      ItemStepFramed(rec, invoiceId);
      ForEachItemFrame(ItemStep(rec, invoiceId), invoiceId, s1, rec.items, None);
      Ok((done.0, Inserted(done.1)))
  }

  /** A new waybill's header keeps the identity counters ahead of the rows
      and the waybills unique. */
  lemma InsertHeaderKeeps(s: Store, rec: InvoiceRecord)
    requires !HasWaybill(s.invoices, rec.waybill)
    ensures IdentityOk(s) ==> IdentityOk(InsertHeader(s, rec).0)
    ensures WaybillsUnique(s.invoices) ==> WaybillsUnique(InsertHeader(s, rec).0.invoices)
  {
    if IdentityOk(s) {
      InvoiceIdsBelowAppend(s.invoices, HeaderRow(s.nextInvoiceId, rec), s.nextInvoiceId, s.nextInvoiceId + 1);
    }
  }

  /** A new waybill fails exactly when it has a line item whose dates do not
      work out: an unreadable invoice date, or a known vendor's due date
      beyond year 9999. */
  lemma InsertInvoiceFails(s: Store, rec: InvoiceRecord)
    requires !HasWaybill(s.invoices, rec.waybill)
    ensures InsertInvoice(s, rec).Err? <==> rec.items != [] && !DatesOk(s.vendors, rec)
  {
    var (s1, invoiceId) := InsertHeader(s, rec);
    ItemStepFramed(rec, invoiceId);
    ItemStepDecided(rec, invoiceId, s.vendors);
    ForEachItemSucceeds(ItemStep(rec, invoiceId), invoiceId, s.vendors, DatesOk(s.vendors, rec), s1, rec.items, None);
  }

  /** For a new waybill whose dates work out, each line item gets the plan's
      reminder with its own line-item identifier (none for an unknown vendor),
      and the reply carries the last line item's note. */
  lemma InsertInvoiceReminders(s: Store, rec: InvoiceRecord, plan: ReminderPlan)
    requires IdentityOk(s) && !HasWaybill(s.invoices, rec.waybill)
    requires Plans(s.vendors, rec, plan)
    ensures InsertInvoice(s, rec).Ok?
    ensures InsertInvoice(s, rec).value.0.reminders == s.reminders + PlanReminders(plan, rec, s.nextLineItemId, rec.items)
    ensures InsertInvoice(s, rec).value.1 == Inserted(LastNote(plan, rec, s.nextLineItemId, rec.items, None))
  {
    var (s1, invoiceId) := InsertHeader(s, rec);
    InsertHeaderKeeps(s, rec);
    ItemStepPlanned(rec, invoiceId, s.vendors, plan);
    ForEachItemFollowsPlan(ItemStep(rec, invoiceId), s.vendors, rec, plan, s1, rec.items, None);
    PlannedBodyIsLast(plan, rec, s1.nextLineItemId, rec.items, None);
    var done := ForEachItem(ItemStep(rec, invoiceId), s1, rec.items, None).value;
    assert InsertInvoice(s, rec) == Ok((done.0, Inserted(done.1)));
    assert s1.nextLineItemId == s.nextLineItemId;
    assert done.1 == PlannedBody(plan, rec, s.nextLineItemId, rec.items, None);
  }

  /** Ingesting the same invoice again writes nothing: the second run meets the duplicate guard. */
  lemma InsertInvoiceTwice(s: Store, rec: InvoiceRecord)
    requires InsertInvoice(s, rec).Ok?
    ensures var s' := InsertInvoice(s, rec).value.0;
      && HasWaybill(s'.invoices, rec.waybill)
      && InsertInvoice(s', rec) == Ok((s', Skipped(rec.waybill)))
  {
    var s' := InsertInvoice(s, rec).value.0;
    if !HasWaybill(s.invoices, rec.waybill) {
      assert s'.invoices[|s.invoices|] == HeaderRow(s.nextInvoiceId, rec);
    }
  }

  /** Ingestion keeps the store consistent, and afterwards exactly one
      invoice carries the waybill. */
  lemma InsertInvoiceKeepsConsistent(s: Store, rec: InvoiceRecord)
    requires Consistent(s)
    requires InsertInvoice(s, rec).Ok?
    ensures Consistent(InsertInvoice(s, rec).value.0)
    ensures CountWaybill(InsertInvoice(s, rec).value.0.invoices, rec.waybill) == 1
  {
    var s' := InsertInvoice(s, rec).value.0;
    if !HasWaybill(s.invoices, rec.waybill) {
      var (s1, invoiceId) := InsertHeader(s, rec);
      InsertHeaderKeeps(s, rec);
      assert Consistent(s1);
      ItemStepConsistent(rec, invoiceId);
      ForEachItemKeepsConsistent(ItemStep(rec, invoiceId), s1, rec.items, None);
    }
    InsertInvoiceTwice(s, rec);
    UniqueWaybillCount(s'.invoices, rec.waybill);
  }

  /** Ingesting line items of non-negative quantity never lowers a purchase
      order's received quantity. */
  lemma InsertInvoiceReceivedGrows(s: Store, rec: InvoiceRecord)
    requires OrderIdsUnique(s.purchaseOrders)
    requires forall k :: 0 <= k < |rec.items| ==> rec.items[k].quantity >= 0
    requires InsertInvoice(s, rec).Ok?
    ensures ReceivedGrows(s.purchaseOrders, InsertInvoice(s, rec).value.0.purchaseOrders)
  {
    if HasWaybill(s.invoices, rec.waybill) {
      ReceivedGrowsRefl(s.purchaseOrders);
    } else {
      var (s1, invoiceId) := InsertHeader(s, rec);
      ItemStepFramed(rec, invoiceId);
      ItemStepMonotone(rec, invoiceId);
      ForEachItemReceivedGrows(ItemStep(rec, invoiceId), invoiceId, s1, rec.items, None);
    }
  }

  /** Where the line-item loop of `rec` on `s` stands just before line item `k`. */
  function RunBefore(s: Store, rec: InvoiceRecord, k: nat): Result<(Store, Option<ReminderNote>), DateError>
    requires k <= |rec.items|
  {
    ForEachItem(ItemStep(rec, s.nextInvoiceId), InsertHeader(s, rec).0, rec.items[..k], None)
  }

  /** Two line items of one new invoice with the same description: the later
      one records no receipt and changes no received quantity, so a purchase
      order takes at most one delivery per waybill. */
  lemma InsertInvoiceSameOrderOnce(s: Store, rec: InvoiceRecord, k1: nat, k2: nat)
    requires !HasWaybill(s.invoices, rec.waybill) && InsertInvoice(s, rec).Ok?
    requires k1 < k2 < |rec.items| && rec.items[k1].description == rec.items[k2].description
    ensures RunBefore(s, rec, k2).Ok?
    ensures var t := RunBefore(s, rec, k2).value.0;
      var r := ProcessItem(t, rec, s.nextInvoiceId, rec.items[k2]);
      r.Ok? && r.value.0.purchaseOrders == t.purchaseOrders && r.value.0.receipts == t.receipts
  {
    var (s1, invoiceId) := InsertHeader(s, rec);
    var step := ItemStep(rec, invoiceId);
    assert ForEachItem(step, s1, rec.items, None).Ok?;
    ForEachItemSplit(step, s1, rec.items, None, k2);
    ItemStepFramed(rec, invoiceId);
    ForEachItemBetween(step, invoiceId, s1, rec.items, None, k1, k2);
    var pre := ForEachItem(step, s1, rec.items[..k1], None).value;
    var mid := RunBefore(s, rec, k2).value;
    assert step(pre.0, rec.items[k1]) == ProcessItem(pre.0, rec, invoiceId, rec.items[k1]);
    ProcessItemSameOrderOnce(pre.0, rec, invoiceId, rec.items[k1], mid.0, rec.items[k2]);
  }

  /** Each line item of a new invoice is reconciled against its purchase
      order: from where the run stands before item `k` to where it stands
      after it, the receipts and orders change by the delivery of that item's
      quantity under the invoice's waybill and date. */
  lemma InsertInvoiceReconciles(s: Store, rec: InvoiceRecord, k: nat)
    requires !HasWaybill(s.invoices, rec.waybill) && InsertInvoice(s, rec).Ok?
    requires k < |rec.items|
    ensures RunBefore(s, rec, k).Ok? && RunBefore(s, rec, k + 1).Ok?
    ensures ParseDate(rec.exportDate).Ok?
    ensures DeliveryApplied(RunBefore(s, rec, k).value.0, rec.billToName, rec.items[k].description,
      rec.items[k].quantity, rec.waybill, ParseDate(rec.exportDate).value, RunBefore(s, rec, k + 1).value.0)
  {
    var (s1, invoiceId) := InsertHeader(s, rec);
    var step := ItemStep(rec, invoiceId);
    assert ForEachItem(step, s1, rec.items, None).Ok?;
    ForEachItemStepAt(step, s1, rec.items, None, k);
    var mid := RunBefore(s, rec, k).value;
    assert step(mid.0, rec.items[k]) == ProcessItem(mid.0, rec, invoiceId, rec.items[k]);
    ProcessItemReconciles(mid.0, rec, invoiceId, rec.items[k]);
  }

  /** An invoice without line items never reads its date: a new waybill
      writes the header alone and returns `None` as the body. */
  lemma InsertInvoiceNoItems(s: Store, rec: InvoiceRecord)
    requires !HasWaybill(s.invoices, rec.waybill) && rec.items == []
    ensures InsertInvoice(s, rec) == Ok((InsertHeader(s, rec).0, Inserted(None)))
  {
  }
}
