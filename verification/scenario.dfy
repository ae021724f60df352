/** The worked scenario of the workflow, computed step by step: a first
    invoice from a vendor with a 30-day credit period, for one line item
    that exactly meets an open purchase order. */
module Scenario {
  import opened Results
  import opened Dates
  import opened DateText
  import opened Escaping
  import opened Tables
  import opened Reminders
  import opened Deliveries
  import opened Ingestion

  function Acme(): seq<Vendor> {
    [Vendor(1, "Acme", 30)]
  }

  function OpenOrder(): seq<PurchaseOrder> {
    [PurchaseOrder(7, 1, "Widget", 10, 0)]
  }

  function Widget(): ItemRecord {
    ItemRecord(Some("Widget"), 10, "5.00", "50.00")
  }

  function Shipment(): InvoiceRecord {
    InvoiceRecord("AWB123", "01/01/2024", "Acme", "1 Main St", "Acme", "1 Main St", [Widget()])
  }

  /** The store before: the vendor and its open order, nothing else. */
  function Before(): Store {
    Store([], [], Acme(), OpenOrder(), [], [], 1, 1)
  }

  function Reminder(): PaymentReminder {
    PaymentReminder(1, 1, Date(1, 1, 2024), Date(31, 1, 2024), "AWB123", "50.00")
  }

  /** The store after: one header, one line item, one reminder, one receipt, the order met. */
  function After(): Store {
    Store(
      [HeaderRow(1, Shipment())],
      [LineItem(1, 1, "Widget", 10, "5.00", "50.00")],
      Acme(),
      [PurchaseOrder(7, 1, "Widget", 10, 10)],
      [Reminder()],
      [DeliveryReceipt(7, "AWB123", 10, Date(1, 1, 2024))],
      2, 2)
  }

  lemma WidgetStored()
    ensures StoredDescription(Some("Widget")) == "Widget"
  {
    var w := "Widget";
    assert w[0] != Quote && w[1] != Quote && w[2] != Quote && w[3] != Quote && w[4] != Quote && w[5] != Quote;
    EscapeWithoutQuotes(w);
  }

  lemma ScenarioReconcile(t: Store)
    requires t.vendors == Acme() && t.purchaseOrders == OpenOrder() && t.receipts == []
    ensures ReconcileDelivery(t, "Acme", Some("Widget"), 10, "AWB123", "01/01/2024")
         == Ok((t.(receipts := After().receipts, purchaseOrders := After().purchaseOrders), Fulfilled(7, 10)))
  {
    ReadsCanonical();
    ScenarioApply(t);
  }

  lemma ScenarioApply(t: Store)
    requires t.vendors == Acme() && t.purchaseOrders == OpenOrder() && t.receipts == []
    ensures ApplyDelivery(t, "Acme", Some("Widget"), 10, "AWB123", Date(1, 1, 2024))
         == (t.(receipts := After().receipts, purchaseOrders := After().purchaseOrders), Fulfilled(7, 10))
  {
    assert FindVendor(t.vendors, "Acme") == Some(0);
    assert FindOrder(t.purchaseOrders, 1, Some("Widget")) == Some(0);
    assert ReceiptCount(t.receipts, 7, "AWB123") == 0;
    assert SetReceived(t.purchaseOrders, 7, 10) == After().purchaseOrders;
  }

  lemma ScenarioReminder(t: Store)
    requires t.vendors == Acme()
    ensures InsertPaymentReminder(t, "Acme", "01/01/2024", "50.00", "AWB123", 1)
         == Ok((t.(reminders := t.reminders + [Reminder()]), Created(Reminder())))
  {
    ReadsCanonical();
    DueDateExample();
    assert FindVendor(t.vendors, "Acme") == Some(0);
  }

  lemma ScenarioItem(t: Store)
    requires t == Store([HeaderRow(1, Shipment())], [], Acme(), OpenOrder(), [], [], 2, 1)
    ensures ProcessItem(t, Shipment(), 1, Widget()) == Ok((After(), Created(Reminder())))
  {
    WidgetStored();
    var (t1, lineId) := InsertLineItem(t, 1, Widget());
    assert t1.lineItems == After().lineItems;
    assert lineId == 1;
    ScenarioReminder(t1);
    var t2 := t1.(reminders := [Reminder()]);
    ScenarioReconcile(t2);
  }

  /** The store once the header is written: before any line item. */
  function Headed(): Store {
    Store([HeaderRow(1, Shipment())], [], Acme(), OpenOrder(), [], [], 2, 1)
  }

  lemma ScenarioHeader()
    ensures InsertHeader(Before(), Shipment()) == (Headed(), 1)
  {
    assert !HasWaybill(Before().invoices, Shipment().waybill);
  }

  lemma ScenarioLoop()
    ensures ForEachItem(ItemStep(Shipment(), 1), Headed(), Shipment().items, None)
         == Ok((After(), Some(Created(Reminder()))))
  {
    ScenarioItem(Headed());
    ForEachSingleItem(ItemStep(Shipment(), 1), Headed(), Shipment().items, None);
  }

  lemma ScenarioAgain()
    ensures InsertInvoice(After(), Shipment()) == Ok((After(), Skipped("AWB123")))
  {
    assert After().invoices[0].waybill == "AWB123";
  }

  /** Ingesting the shipment stores exactly the rows of After, reporting the
      reminder it created; submitting it again writes nothing. */
  lemma ScenarioIngestion()
    ensures InsertInvoice(Before(), Shipment()) == Ok((After(), Inserted(Some(Created(Reminder())))))
    ensures InsertInvoice(After(), Shipment()) == Ok((After(), Skipped("AWB123")))
  {
    assert !HasWaybill(Before().invoices, Shipment().waybill);
    ScenarioHeader();
    ScenarioLoop();
    ScenarioAgain();
  }
}
