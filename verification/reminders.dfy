/** Payment-reminder derivation for one line item: read the invoice date,
    find the vendor named on the bill, and record a reminder due the
    vendor's credit period (in calendar days) after the invoice date. */
module Reminders {
  import opened Results
  import opened Dates
  import opened DateText
  import opened Tables

  /** What the step reports back: the advisory for an unknown vendor, or the reminder it wrote. */
  datatype ReminderNote = NoVendor(name: string) | Created(reminder: PaymentReminder)

  /** `insert_payment_reminder`. Its behaviour is stated by InsertPaymentReminderSpec. */
  function InsertPaymentReminder(
    s: Store, billToName: string, dateText: string, amount: Amount, waybill: string, lineItemId: nat)
    : (r: Result<(Store, ReminderNote), DateError>)
    ensures r.Ok? ==> r.value.0 == s.(reminders := r.value.0.reminders) && Extends(s.reminders, r.value.0.reminders)
  {
    var date :- ParseDate(dateText);
    match FindVendor(s.vendors, billToName)
    case None => Ok((s, NoVendor(billToName)))
    case Some(k) =>
      var v := s.vendors[k];
      var due :- AddDays(date, v.creditDays);
      var rem := PaymentReminder(v.id, lineItemId, date, due, waybill, amount);
      Ok((s.(reminders := s.reminders + [rem]), Created(rem)))
  }

  /** The date is read first, then the vendor is looked up by name; an
      unknown vendor is an advisory that writes nothing, a known one gets
      exactly one reminder due its credit period after the invoice date. */
  lemma InsertPaymentReminderSpec(
    s: Store, billToName: string, dateText: string, amount: Amount, waybill: string, lineItemId: nat)
    ensures var r := InsertPaymentReminder(s, billToName, dateText, amount, waybill, lineItemId);
      && (ParseDate(dateText).Err? ==> r == Err(MalformedDate(dateText)))
      && (ParseDate(dateText).Ok? && FindVendor(s.vendors, billToName).None? ==>
            r == Ok((s, NoVendor(billToName))))
      && (ParseDate(dateText).Ok? && FindVendor(s.vendors, billToName).Some? ==>
            var date := ParseDate(dateText).value;
            var v := s.vendors[FindVendor(s.vendors, billToName).value];
            && (r.Ok? <==> 1 <= ToOrdinal(date) + v.creditDays <= MaxOrdinal)
            && (r.Err? ==> r.error == DateOutOfRange(date, v.creditDays))
            && (r.Ok? ==> r.value.1.Created?)
            && (r.Ok? ==>
                  var rem := r.value.1.reminder;
                  && r.value.0.reminders == s.reminders + [rem]
                  && rem.vendorId == v.id && rem.lineItemId == lineItemId
                  && rem.invoiceDate == date && rem.waybill == waybill && rem.amount == amount
                  && Valid(rem.dueDate)
                  && ToOrdinal(rem.dueDate) == ToOrdinal(date) + v.creditDays))
  {
  }

  /** The worked example: 01/01/2024 with a 30-day credit period falls due on 31/01/2024. */
  lemma DueDateExample()
    ensures AddDays(Date(1, 1, 2024), 30) == Ok(Date(31, 1, 2024))
  {
    var start := Date(1, 1, 2024);
    var due := Date(31, 1, 2024);
    assert ToOrdinal(due) == ToOrdinal(start) + 30;
    OrdinalInRange(due);
    OrdinalInjective(AddDays(start, 30).value, due);
  }
}
