/** Purchase-order reconciliation for one delivered line: find the vendor,
    then its purchase order for the item, skip a shipment already recorded
    against that order, otherwise record the receipt and add the delivered
    quantity to the order's received quantity. */
module Deliveries {
  import opened Results
  import opened Dates
  import opened DateText
  import opened Tables

  /** What the step reports. Only the last two change the store. */
  datatype DeliveryNote =
    | UnknownVendor(name: string)
    | NoPurchaseOrder
    | AlreadyDelivered(poId: nat)
    | Fulfilled(poId: nat, received: int)
    | PartiallyFulfilled(poId: nat, received: int, ordered: int)

  /** An order is fulfilled once what it has received reaches what it ordered. */
  function Classify(poId: nat, received: int, ordered: int): (note: DeliveryNote)
    ensures note.Fulfilled? <==> received >= ordered
    ensures note.Fulfilled? || note.PartiallyFulfilled?
    ensures note.Fulfilled? ==> note == Fulfilled(poId, received)
    ensures note.PartiallyFulfilled? ==> note == PartiallyFulfilled(poId, received, ordered)
  {
    if received >= ordered then Fulfilled(poId, received) else PartiallyFulfilled(poId, received, ordered)
  }

  /** `UPDATE PurchaseOrders SET ReceivedQuantity = q WHERE POID = poId`. */
  function SetReceived(orders: seq<PurchaseOrder>, poId: nat, q: int): (r: seq<PurchaseOrder>)
    ensures |r| == |orders|
    ensures forall i :: 0 <= i < |orders| && orders[i].id == poId ==> r[i] == orders[i].(received := q)
    ensures forall i :: 0 <= i < |orders| && orders[i].id != poId ==> r[i] == orders[i]
  {
    seq(|orders|, i requires 0 <= i < |orders| =>
      if orders[i].id == poId then orders[i].(received := q) else orders[i])
  }

  /** A purchase-order lookup only reads the columns a reconciliation leaves alone. */
  lemma {:induction false} FindOrderIgnoresReceived(a: seq<PurchaseOrder>, b: seq<PurchaseOrder>, vendorId: nat, d: Option<string>)
    requires SameOrdersButReceived(a, b)
    ensures FindOrder(a, vendorId, d) == FindOrder(b, vendorId, d)
    decreases |a|
  {
    if d.Some? && a != [] {
      assert a[0].vendorId == b[0].vendorId && a[0].description == b[0].description;
      assert SameOrdersButReceived(a[1..], b[1..]) by {
        forall i | 0 <= i < |a| - 1
          ensures a[1..][i].vendorId == b[1..][i].vendorId && a[1..][i].description == b[1..][i].description
          ensures a[1..][i].id == b[1..][i].id && a[1..][i].ordered == b[1..][i].ordered
        {
          assert a[1..][i] == a[i + 1] && b[1..][i] == b[i + 1];
        }
      }
      FindOrderIgnoresReceived(a[1..], b[1..], vendorId, d);
    }
  }

  /** `check_and_update_po_delivery` once its date has been read as `date`.
      Its behaviour is stated by ApplyDeliverySpec. */
  function ApplyDelivery(
    s: Store, vendorName: string, itemDescription: Option<string>, quantity: int, waybill: string, date: Date)
    : (r: (Store, DeliveryNote))
    ensures r.0 == s.(receipts := r.0.receipts, purchaseOrders := r.0.purchaseOrders)
    ensures SameOrdersButReceived(s.purchaseOrders, r.0.purchaseOrders)
    ensures Extends(s.receipts, r.0.receipts)
  {
    match FindVendor(s.vendors, vendorName)
    case None => (s, UnknownVendor(vendorName))
    case Some(k) =>
      match FindOrder(s.purchaseOrders, s.vendors[k].id, itemDescription)
      case None => (s, NoPurchaseOrder)
      case Some(j) =>
        var po := s.purchaseOrders[j];
        var newReceived := po.received + quantity;
        if ReceiptCount(s.receipts, po.id, waybill) > 0 then
          (s, AlreadyDelivered(po.id))
        else
          var receipt := DeliveryReceipt(po.id, waybill, quantity, date);
          (s.(receipts := s.receipts + [receipt],
              purchaseOrders := SetReceived(s.purchaseOrders, po.id, newReceived)),
           Classify(po.id, newReceived, po.ordered))
  }

  /** `check_and_update_po_delivery`: read the date, then apply the delivery.
      Its behaviour is stated by ReconcileDeliverySpec. */
  function ReconcileDelivery(
    s: Store, vendorName: string, itemDescription: Option<string>, quantity: int, waybill: string, dateText: string)
    : (r: Result<(Store, DeliveryNote), DateError>)
    ensures r.Ok? ==>
      && r.value.0 == s.(receipts := r.value.0.receipts, purchaseOrders := r.value.0.purchaseOrders)
      && SameOrdersButReceived(s.purchaseOrders, r.value.0.purchaseOrders)
      && Extends(s.receipts, r.value.0.receipts)
  {
    var date :- ParseDate(dateText);
    Ok(ApplyDelivery(s, vendorName, itemDescription, quantity, waybill, date))
  }

  /** The vendor lookup, the order lookup by (vendor, description) and
      the check for a receipt under (order, waybill) each end the step
      without a write; otherwise one receipt is added, the matched order's
      received quantity grows by the delivered quantity, and the order is
      classified against what it ordered. */
  lemma ApplyDeliverySpec(
    s: Store, vendorName: string, itemDescription: Option<string>, quantity: int, waybill: string, date: Date)
    ensures var r := ApplyDelivery(s, vendorName, itemDescription, quantity, waybill, date);
      && (r.1.UnknownVendor? <==> FindVendor(s.vendors, vendorName).None?)
      && (r.1.UnknownVendor? ==> r.1.name == vendorName)
      && (r.1.NoPurchaseOrder? <==>
            FindVendor(s.vendors, vendorName).Some?
            && FindOrder(s.purchaseOrders, s.vendors[FindVendor(s.vendors, vendorName).value].id, itemDescription).None?)
      && (r.1.UnknownVendor? || r.1.NoPurchaseOrder? || r.1.AlreadyDelivered? ==> r.0 == s)
      && (!r.1.UnknownVendor? && !r.1.NoPurchaseOrder? ==>
            var po := s.purchaseOrders[FindOrder(s.purchaseOrders, s.vendors[FindVendor(s.vendors, vendorName).value].id, itemDescription).value];
            && r.1.poId == po.id
            && (r.1.AlreadyDelivered? <==> HasReceipt(s.receipts, po.id, waybill))
            && (!r.1.AlreadyDelivered? ==>
                  && r.0.receipts == s.receipts + [DeliveryReceipt(po.id, waybill, quantity, date)]
                  && r.0.purchaseOrders == SetReceived(s.purchaseOrders, po.id, po.received + quantity)
                  && (r.1.Fulfilled? <==> po.received + quantity >= po.ordered)
                  && r.1 == Classify(po.id, po.received + quantity, po.ordered)))
  {
  }

  /** The date is read first; then the vendor lookup, the order lookup by
      (vendor, description) and the check for a receipt under
      (order, waybill) each end the step without a write; otherwise one
      receipt is added, the matched order's received quantity grows by the
      delivered quantity, and the order is classified against what it ordered. */
  lemma ReconcileDeliverySpec(
    s: Store, vendorName: string, itemDescription: Option<string>, quantity: int, waybill: string, dateText: string)
    ensures var r := ReconcileDelivery(s, vendorName, itemDescription, quantity, waybill, dateText);
      && (r.Err? <==> ParseDate(dateText).Err?)
      && (r.Err? ==> r.error == MalformedDate(dateText))
      && (r.Ok? ==> (r.value.1.UnknownVendor? <==> FindVendor(s.vendors, vendorName).None?))
      && (r.Ok? && r.value.1.UnknownVendor? ==> r.value.1.name == vendorName)
      && (r.Ok? ==> (r.value.1.NoPurchaseOrder? <==>
            FindVendor(s.vendors, vendorName).Some?
            && FindOrder(s.purchaseOrders, s.vendors[FindVendor(s.vendors, vendorName).value].id, itemDescription).None?))
      && (r.Ok? && (r.value.1.UnknownVendor? || r.value.1.NoPurchaseOrder? || r.value.1.AlreadyDelivered?) ==>
            r.value.0 == s)
      && (r.Ok? && !r.value.1.UnknownVendor? && !r.value.1.NoPurchaseOrder? ==>
            var po := s.purchaseOrders[FindOrder(s.purchaseOrders, s.vendors[FindVendor(s.vendors, vendorName).value].id, itemDescription).value];
            && r.value.1.poId == po.id
            && (r.value.1.AlreadyDelivered? <==> HasReceipt(s.receipts, po.id, waybill))
            && (!r.value.1.AlreadyDelivered? ==>
                  && r.value.0.receipts == s.receipts + [DeliveryReceipt(po.id, waybill, quantity, ParseDate(dateText).value)]
                  && r.value.0.purchaseOrders == SetReceived(s.purchaseOrders, po.id, po.received + quantity)
                  && (r.value.1.Fulfilled? <==> po.received + quantity >= po.ordered)
                  && r.value.1 == Classify(po.id, po.received + quantity, po.ordered)))
  {
    if ParseDate(dateText).Ok? {
      ApplyDeliverySpec(s, vendorName, itemDescription, quantity, waybill, ParseDate(dateText).value);
    }
  }

  /** The receipts and orders `after` holds once a delivery of `quantity` under
      `waybill` on `date` is applied to `s`: when the vendor is known, has an
      order for the item, and that order has no receipt under the waybill,
      one receipt more and the order's received quantity raised by the
      quantity; otherwise both tables as they were. */
  predicate DeliveryApplied(
    s: Store, vendorName: string, itemDescription: Option<string>, quantity: int, waybill: string, date: Date,
    after: Store)
  {
    var kept := after.receipts == s.receipts && after.purchaseOrders == s.purchaseOrders;
    match FindVendor(s.vendors, vendorName)
    case None => kept
    case Some(k) =>
      match FindOrder(s.purchaseOrders, s.vendors[k].id, itemDescription)
      case None => kept
      case Some(j) =>
        var po := s.purchaseOrders[j];
        if HasReceipt(s.receipts, po.id, waybill) then kept
        else
          && after.receipts == s.receipts + [DeliveryReceipt(po.id, waybill, quantity, date)]
          && after.purchaseOrders == SetReceived(s.purchaseOrders, po.id, po.received + quantity)
  }

  /** Whether a delivery was applied depends on the vendors, orders and receipts alone. */
  lemma DeliveryAppliedOnTables(
    s: Store, t: Store, vendorName: string, itemDescription: Option<string>, quantity: int, waybill: string, date: Date,
    after: Store)
    requires s.vendors == t.vendors && s.purchaseOrders == t.purchaseOrders && s.receipts == t.receipts
    ensures DeliveryApplied(s, vendorName, itemDescription, quantity, waybill, date, after)
        == DeliveryApplied(t, vendorName, itemDescription, quantity, waybill, date, after)
  {
  }

  /** A reconciliation that goes through has read its date, and applies the
      delivery to the receipts and orders. */
  lemma ReconcileDeliveryApplies(
    s: Store, vendorName: string, itemDescription: Option<string>, quantity: int, waybill: string, dateText: string)
    requires ReconcileDelivery(s, vendorName, itemDescription, quantity, waybill, dateText).Ok?
    ensures ParseDate(dateText).Ok?
    ensures DeliveryApplied(s, vendorName, itemDescription, quantity, waybill, ParseDate(dateText).value,
      ReconcileDelivery(s, vendorName, itemDescription, quantity, waybill, dateText).value.0)
  {
    ReconcileDeliverySpec(s, vendorName, itemDescription, quantity, waybill, dateText);
  }

  /** A successful reconciliation changes no order but the matched one, and
      that one only in its received quantity, which grows by the quantity. */
  lemma ReconcileTouchesOneOrder(
    s: Store, vendorName: string, itemDescription: Option<string>, quantity: int, waybill: string, dateText: string)
    requires OrderIdsUnique(s.purchaseOrders)
    requires var r := ReconcileDelivery(s, vendorName, itemDescription, quantity, waybill, dateText);
      r.Ok? && (r.value.1.Fulfilled? || r.value.1.PartiallyFulfilled?)
    ensures var r := ReconcileDelivery(s, vendorName, itemDescription, quantity, waybill, dateText);
      var j := FindOrder(s.purchaseOrders, s.vendors[FindVendor(s.vendors, vendorName).value].id, itemDescription).value;
      var after := r.value.0.purchaseOrders;
      && SameOrdersButReceived(s.purchaseOrders, after)
      && after[j].received == s.purchaseOrders[j].received + quantity
      && (forall i :: 0 <= i < |after| && i != j ==> after[i] == s.purchaseOrders[i])
      && (quantity >= 0 ==> forall i :: 0 <= i < |after| ==> s.purchaseOrders[i].received <= after[i].received)
  {
  }

  /** Reconciling the same shipment against the same order a second time
      finds the receipt the first one wrote and changes nothing, whatever
      quantity and date the second attempt carries. */
  lemma ReconcileIdempotent(
    s: Store, vendorName: string, itemDescription: Option<string>, quantity: int, waybill: string, dateText: string,
    quantity2: int, dateText2: string)
    requires var r := ReconcileDelivery(s, vendorName, itemDescription, quantity, waybill, dateText);
      r.Ok? && (r.value.1.Fulfilled? || r.value.1.PartiallyFulfilled?)
    requires ParseDate(dateText2).Ok?
    ensures var s1 := ReconcileDelivery(s, vendorName, itemDescription, quantity, waybill, dateText).value.0;
      var poId := ReconcileDelivery(s, vendorName, itemDescription, quantity, waybill, dateText).value.1.poId;
      ReconcileDelivery(s1, vendorName, itemDescription, quantity2, waybill, dateText2) == Ok((s1, AlreadyDelivered(poId)))
  {
    var r := ReconcileDelivery(s, vendorName, itemDescription, quantity, waybill, dateText);
    var s1 := r.value.0;
    var k := FindVendor(s.vendors, vendorName).value;
    var j := FindOrder(s.purchaseOrders, s.vendors[k].id, itemDescription).value;
    var po := s.purchaseOrders[j];
    assert SameOrdersButReceived(s.purchaseOrders, s1.purchaseOrders);
    FindOrderIgnoresReceived(s.purchaseOrders, s1.purchaseOrders, s.vendors[k].id, itemDescription);
    assert s1.receipts[|s.receipts|] == DeliveryReceipt(po.id, waybill, quantity, ParseDate(dateText).value);
    assert HasReceipt(s1.receipts, po.id, waybill);
  }

  /** Reconciliation keeps the store's keys unique. */
  lemma ReconcileKeepsConsistent(
    s: Store, vendorName: string, itemDescription: Option<string>, quantity: int, waybill: string, dateText: string)
    requires Consistent(s)
    requires ReconcileDelivery(s, vendorName, itemDescription, quantity, waybill, dateText).Ok?
    ensures Consistent(ReconcileDelivery(s, vendorName, itemDescription, quantity, waybill, dateText).value.0)
  {
    var r := ReconcileDelivery(s, vendorName, itemDescription, quantity, waybill, dateText);
    if r.value.1.Fulfilled? || r.value.1.PartiallyFulfilled? {
      var s1 := r.value.0;
      assert SameOrdersButReceived(s.purchaseOrders, s1.purchaseOrders);
      var last := |s1.receipts| - 1;
      assert forall i :: 0 <= i < last ==> s1.receipts[i] == s.receipts[i];
      assert !HasReceipt(s.receipts, s1.receipts[last].poId, s1.receipts[last].waybill);
    }
  }

  /** A second reconciliation of the same shipment line (same vendor name,
      description and waybill) writes nothing, whatever quantity and readable
      date it carries, on any store that kept the first one's vendors and
      receipts and changed orders only in their received quantities. */
  lemma ReconcileAgainWritesNothing(
    s: Store, vendorName: string, itemDescription: Option<string>, quantity: int, waybill: string, dateText: string,
    t: Store, quantity2: int, dateText2: string)
    requires ReconcileDelivery(s, vendorName, itemDescription, quantity, waybill, dateText).Ok?
    requires var s1 := ReconcileDelivery(s, vendorName, itemDescription, quantity, waybill, dateText).value.0;
      && t.vendors == s1.vendors
      && SameOrdersButReceived(s1.purchaseOrders, t.purchaseOrders)
      && Extends(s1.receipts, t.receipts)
    requires ParseDate(dateText2).Ok?
    ensures var r2 := ReconcileDelivery(t, vendorName, itemDescription, quantity2, waybill, dateText2);
      && r2.Ok? && r2.value.0 == t
      && (r2.value.1.UnknownVendor? || r2.value.1.NoPurchaseOrder? || r2.value.1.AlreadyDelivered?)
  {
    ApplyAgainWritesNothing(s, vendorName, itemDescription, quantity, waybill, ParseDate(dateText).value,
      t, quantity2, ParseDate(dateText2).value);
  }

  /** ReconcileAgainWritesNothing once both dates have been read. */
  lemma ApplyAgainWritesNothing(
    s: Store, vendorName: string, itemDescription: Option<string>, quantity: int, waybill: string, date: Date,
    t: Store, quantity2: int, date2: Date)
    requires var s1 := ApplyDelivery(s, vendorName, itemDescription, quantity, waybill, date).0;
      && t.vendors == s1.vendors
      && SameOrdersButReceived(s1.purchaseOrders, t.purchaseOrders)
      && Extends(s1.receipts, t.receipts)
    ensures var r2 := ApplyDelivery(t, vendorName, itemDescription, quantity2, waybill, date2);
      && r2.0 == t
      && (r2.1.UnknownVendor? || r2.1.NoPurchaseOrder? || r2.1.AlreadyDelivered?)
  {
    var r1 := ApplyDelivery(s, vendorName, itemDescription, quantity, waybill, date);
    ApplyDeliverySpec(s, vendorName, itemDescription, quantity, waybill, date);
    ApplyDeliverySpec(t, vendorName, itemDescription, quantity2, waybill, date2);
    SameOrdersTransitive(s.purchaseOrders, r1.0.purchaseOrders, t.purchaseOrders);
    if FindVendor(s.vendors, vendorName).Some? {
      var k := FindVendor(s.vendors, vendorName).value;
      FindOrderIgnoresReceived(s.purchaseOrders, t.purchaseOrders, s.vendors[k].id, itemDescription);
      var found := FindOrder(s.purchaseOrders, s.vendors[k].id, itemDescription);
      if found.Some? {
        var po := s.purchaseOrders[found.value];
        var i :| 0 <= i < |r1.0.receipts| && r1.0.receipts[i].poId == po.id && r1.0.receipts[i].waybill == waybill
          by {
            if !r1.1.AlreadyDelivered? {
              assert r1.0.receipts[|s.receipts|] == DeliveryReceipt(po.id, waybill, quantity, date);
            }
          }
        assert t.receipts[i] == r1.0.receipts[i];
        assert t.purchaseOrders[found.value].id == po.id;
      }
    }
  }
}
