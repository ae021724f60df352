# Invoice ingestion, payment reminders and purchase-order reconciliation

A Dafny model of the invoice-ingestion workflow of `invoice_utils.py`. It
covers three functions:

- `insert_invoice_to_sql`: a duplicate guard on the waybill number, then one
  invoice header and, for each line item in order, a line-item row, a payment
  reminder and a purchase-order reconciliation.
- `insert_payment_reminder`: reads a `%d/%m/%Y` invoice date, looks up the
  vendor by name, and records a reminder due the vendor's credit period in
  calendar days later.
- `check_and_update_po_delivery`: vendor lookup, then purchase-order lookup by
  vendor and item description, then a check on the (order, waybill)
  receipt key. On success it records the receipt, adds the delivered
  quantity to the order's received quantity, and classifies the order as
  fulfilled or partially fulfilled.

The model also covers the span selection of `extract_json_block`.

The database is an in-memory `Store` of six tables: invoices, line items,
vendors, purchase orders, payment reminders and delivery receipts.

- Rows keep insertion order.
- A `fetchone` without `ORDER BY` returns the first matching row.
- Identity columns are counters.
- The generated identifiers are not assumed. They are recovered, as the code
  does, with `max(InvoiceID)` / `max(LineItemID)` queries over the tables.
  The model proves that these queries return the row just written whenever
  every stored identifier is below its counter (`IdentityOk`).

Every operation is a pure function from a store to a new store and an outcome:

- A business-rule skip is an ordinary outcome that writes nothing: a
  duplicate waybill, an unknown vendor, no matching order, or a delivery
  already recorded.
- An exception is `Err`: a malformed date (`strptime`'s `ValueError`) or a
  due date outside years 1 to 9999 (`OverflowError`). The due date can fall
  after year 9999, or before 1 January of year 1 when the credit period is
  negative. The transaction is then never committed, so the caller keeps
  the store it had.

Dates are proleptic Gregorian `(day, month, year)` triples over years 1 to
9999, as Python's `date` holds them. Day ordinals count from 1 January of
year 1. `date + timedelta(days = n)` is ordinal arithmetic, defined through
`FromOrdinal`.

Modules:

| file | module | contents |
|---|---|---|
| results.dfy | Results | `Option`, `Result` |
| dates.dfy | Dates | calendar, ordinals, `AddDays` |
| date_text.dfy | DateText | `%d/%m/%Y` reading and writing |
| escaping.dfy | Escaping | apostrophe doubling of stored descriptions |
| tables.dfy | Tables | rows, store, queries, invariants |
| reminders.dfy | Reminders | `insert_payment_reminder` |
| deliveries.dfy | Deliveries | `check_and_update_po_delivery` |
| ingestion.dfy | Ingestion | `insert_invoice_to_sql` |
| json_block.dfy | JsonBlock | span selection of `extract_json_block` |
| scenario.dfy | Scenario | one concrete invoice, end to end |

The line-item loop of `insert_invoice_to_sql` is `ForEachItem`, written over
any step function. The facts about a whole run are proved once, for any step
with the matching one-step property:

- frame;
- success;
- reminders and the returned body;
- consistency;
- monotone received quantities.

The `ItemStep*` lemmas then show that the real line-item step
(`ProcessItem`) has each of those properties.

## Model

| member | source | states |
|---|---|---|
| Dates.AddDays | invoice_utils.py:200-201 | `date + timedelta(days = n)`. It succeeds exactly when the resulting ordinal lies in 1..3652059; otherwise it is the overflow error naming the start and the days. A success is a valid date whose ordinal is the start's plus `n`. |
| Dates.FromOrdinal | invoice_utils.py:201 | The date with a given ordinal in range is valid and has that ordinal. |
| Dates.FromOrdinalToOrdinal | invoice_utils.py:201 | Every valid date's ordinal is in range, and converting it back gives the same date. |
| Dates.OrdinalInjective | invoice_utils.py:201 | Two valid dates with the same ordinal are the same date, so the due date is determined by its ordinal. |
| Dates.OrdinalInRange | invoice_utils.py:201 | Every valid date has an ordinal between 1 and 3652059. |
| Dates.MaxOrdinalIsLastDay | invoice_utils.py:201 | The ordinal bound 3652059 is the ordinal of 31/12/9999, the last date Python's `date` can hold. |
| Dates.DaysBeforeYearClosedForm | invoice_utils.py:201 | The year-by-year day count equals the closed form 365(y-1) + (y-1)/4 - (y-1)/100 + (y-1)/400 that Python's calendar uses. |
| Dates.AddZeroDays | invoice_utils.py:201 | A zero-day credit period makes the invoice date itself due. |
| Dates.AddDaysCompose | invoice_utils.py:201 | Adding `a` days then `b` days succeeds exactly when adding `a + b` days does, and lands on the same date. |
| Dates.AddDaysOrder | invoice_utils.py:200-201 | For a non-negative credit period the due date is not before the invoice date in (year, month, day) order. |
| DateText.ParseDate | invoice_utils.py:186 | Reading with `%d/%m/%Y` yields only real calendar dates; a text that does not read raises the malformed-date error carrying that text. |
| DateText.ReadFieldSpells | invoice_utils.py:186 | A day or month field reads as `n` exactly when `n` is in range (1 to 31, 1 to 12) and the field is two digits with a leading zero, or below 10 one digit, or for a day below 10 a space and one digit. |
| DateText.ReadYearSpells | invoice_utils.py:186 | A year field reads as `n` exactly when it is the four digits of `n`. |
| DateText.SplitFieldsJoin | invoice_utils.py:186 | The day, month and year fields found in a text join back, with the two `/`, into that text. |
| DateText.SplitJoined | invoice_utils.py:186 | Day and month fields without a `/`, joined to a year by two `/`, split back into those three fields. |
| DateText.ParseSpellings | invoice_utils.py:186 | A text reads as a date exactly when the date is valid and the text is one of its spellings: day, `/`, month, `/`, four-digit year, each field in a form `strptime` accepts and nothing after the year. |
| DateText.ParseFormat | invoice_utils.py:186 | Every valid date is read back from its own `DD/MM/YYYY` text. |
| DateText.ParseExample | invoice_utils.py:186 | "01/01/2024" and "1/1/2024" read as 1 January 2024 and " 7/3/2024" as 7 March 2024; "29/02/2023" (not a leap year) does not read. |
| DateText.ParseRejects | invoice_utils.py:186 | A space-padded month ("01/ 1/2024"), a two-digit year ("01/01/24") and digits after the year ("01/01/20245") do not read. |
| Escaping.Escape | invoice_utils.py:143 | The escaped text is as long as the original plus its apostrophes. |
| Escaping.UnescapeEscape | invoice_utils.py:143 | Collapsing each `''` back to `'` recovers the original description. |
| Escaping.EscapeAppend | invoice_utils.py:143 | Escaping distributes over concatenation. |
| Escaping.EscapeWithoutQuotes | invoice_utils.py:143 | A description without apostrophes is stored unchanged. |
| Escaping.StoredDescription | invoice_utils.py:143 | The stored description is empty for a missing description. Otherwise its length is the original's plus its apostrophes. Collapsing `''` gives back the description, or the empty text when it was missing. |
| Escaping.EscapeExample | invoice_utils.py:143 | "it's" is stored as "it''s". |
| Tables.CountWaybill | invoice_utils.py:104-107 | The number of invoices with a waybill is zero exactly when the duplicate check finds none, and never exceeds the table size. |
| Tables.MaxOfSpec | invoice_utils.py:128-130 | SQL `max` is absent exactly for no rows, is one of the values, and bounds them all. |
| Tables.InvoiceIdsForSpec | invoice_utils.py:128 | The `max(InvoiceID) … WHERE WaybillNumber = ?` column holds exactly the ids of invoices with that waybill, one per invoice. |
| Tables.LineItemIdsForSpec | invoice_utils.py:149 | The `max(LineItemID) … WHERE InvoiceID = ?` column holds exactly the ids of that invoice's line items. |
| Tables.MaxInvoiceIdOfNewRow | invoice_utils.py:128-130 | For a waybill no earlier invoice carries, the max-id query returns the header just written. |
| Tables.MaxLineItemIdOfNewRow | invoice_utils.py:149-151 | When the new line item's id exceeds every stored one, the max-id query returns it, whatever earlier rows the invoice has. |
| Tables.FindVendor | invoice_utils.py:189-195 | The vendor lookup finds nothing exactly when no vendor has exactly that name. Otherwise it finds the first vendor with that name. |
| Tables.FindOrder | invoice_utils.py:241-247 | The order lookup finds nothing exactly when the description is missing (SQL NULL) or no order of that vendor has exactly that description. Otherwise it finds the first such order. |
| Tables.ReceiptCount | invoice_utils.py:255-260 | The `COUNT(*)` of receipts under (order, waybill) is positive exactly when such a receipt exists. |
| Tables.UniqueWaybillCount | invoice_utils.py:104-111 | Under unique waybills at most one invoice carries a waybill. |
| Reminders.InsertPaymentReminder | invoice_utils.py:184-219 | A reminder step changes nothing but the reminders table, to which it only appends. |
| Reminders.InsertPaymentReminderSpec | invoice_utils.py:184-219 | A malformed date errors before any lookup. An unknown vendor gives the advisory and writes nothing. A known vendor gives an overflow error or exactly one reminder: vendor id, line-item id, invoice date, the due date whose ordinal is the invoice date's plus the credit days, waybill and amount. |
| Reminders.DueDateExample | invoice_utils.py:200-201 | 01/01/2024 with a 30-day credit period falls due on 31/01/2024. |
| Deliveries.Classify | invoice_utils.py:277-282 | An order is fulfilled exactly when its new received quantity reaches the ordered quantity, and partially fulfilled otherwise. |
| Deliveries.SetReceived | invoice_utils.py:272-275 | The update sets the received quantity of the orders with that id and leaves every other order as it was. |
| Deliveries.FindOrderIgnoresReceived | invoice_utils.py:241-245 | The order lookup gives the same answer on tables that differ only in received quantities. |
| Deliveries.ApplyDelivery | invoice_utils.py:226-282 | Once the date is read, the step changes only receipts, which it only appends to, and orders, only in their received quantities. |
| Deliveries.ApplyDeliverySpec | invoice_utils.py:226-282 | Once the date is read: an unknown vendor, no matching order, or an existing (order, waybill) receipt writes nothing. Otherwise exactly one receipt (order, waybill, quantity, date) is appended, that order's received quantity becomes old + quantity, and the order is classified against its ordered quantity. |
| Deliveries.ReconcileDelivery | invoice_utils.py:222-282 | Reconciliation changes only receipts, which it only appends to, and orders, only in their received quantities. |
| Deliveries.ReconcileDeliverySpec | invoice_utils.py:222-282 | The outcome is decided in order: a malformed date errors; an unknown vendor, no matching order, or an existing (order, waybill) receipt writes nothing. Otherwise it appends exactly one receipt (order, waybill, quantity, date), sets that order's received quantity to old + quantity, and classifies against the ordered quantity. |
| Deliveries.ReconcileDeliveryApplies | invoice_utils.py:224-275 | A reconciliation that goes through has read its date. With a known vendor, an order for the item and no receipt under (order, waybill), the receipts gain exactly that receipt and the order's received quantity rises by the quantity. Otherwise receipts and orders are unchanged. |
| Deliveries.ReconcileTouchesOneOrder | invoice_utils.py:251-252 | A successful reconciliation changes only the matched order, only its received quantity, which grows by the quantity. No received quantity falls when the quantity is non-negative. |
| Deliveries.ReconcileIdempotent | invoice_utils.py:255-262 | Reconciling the same order and waybill again, with any quantity and readable date, finds the receipt and changes nothing. |
| Deliveries.ReconcileAgainWritesNothing | invoice_utils.py:254-262 | After any first reconciliation of a (vendor, description, waybill), a second one writes nothing on any store that kept the vendors and receipts and changed orders only in received quantities. |
| Deliveries.ApplyAgainWritesNothing | invoice_utils.py:254-262 | With both dates already read, a second application of the same (vendor, description, waybill) writes nothing on any store that kept the first one's vendors and receipts and changed orders only in received quantities. |
| Deliveries.ReconcileKeepsConsistent | invoice_utils.py:255-269 | Reconciliation keeps identity counters, waybill uniqueness, order-id uniqueness and (order, waybill) receipt uniqueness. |
| Ingestion.LineRowsAt | invoice_utils.py:136-147 | Line-item row `k` of a run is input item `k`, with id `start + k`, the invoice id and the stored (escaped) description. |
| Ingestion.InsertHeader | invoice_utils.py:113-130 | Writing the header appends exactly one invoice row. The max-id query returns an invoice of that waybill, which is the new row when the waybill was new. |
| Ingestion.InsertLineItem | invoice_utils.py:137-151 | Writing a line item appends exactly one row. The max-id query returns the new row's id whenever the identity counters are ahead of the rows, and they stay ahead. |
| Ingestion.PlanFor | invoice_utils.py:186-201 | When the dates work out, the reminder plan is an advisory for an unknown vendor, or a reminder from the first vendor of that name due its credit days after the invoice date. |
| Ingestion.PlansExactly | invoice_utils.py:186-201 | There is a plan exactly when the dates work out, and it is unique. |
| Ingestion.PlanRemindersAt | invoice_utils.py:157-164 | Under a reminder plan, reminder `k` of a run is for input item `k`, with line-item id `start + k` and that item's total. |
| Ingestion.PlannedBodyIsLast | invoice_utils.py:133-164 | The body a run ends with is the note for the last line item, or the initial `None` for no line items. |
| Ingestion.ProcessItem | invoice_utils.py:136-173 | One line-item step writes its row with the next id, and otherwise only appends reminders and receipts and changes received quantities. |
| Ingestion.ForEachItemFrame | invoice_utils.py:136-173 | A run keeps invoices and vendors, appends one row per line item in input order with consecutive ids, changes orders only in received quantities, and only appends reminders and receipts. |
| Ingestion.ForEachItemSucceeds | invoice_utils.py:136-173 | A run fails exactly when it has a line item and the step fails. |
| Ingestion.ForEachItemFollowsPlan | invoice_utils.py:157-164 | Under a plan, a run succeeds, appends the plan's reminders, and ends with the planned body. |
| Ingestion.ForEachItemSplit | invoice_utils.py:136 | A run over the items is its first `k` items followed by the rest, started where those left off. |
| Ingestion.ForEachItemStepAt | invoice_utils.py:136-173 | The run through item `k` is the run before it followed by item `k`'s step, and both succeed when the whole run does. |
| Ingestion.ForEachItemBetween | invoice_utils.py:136-173 | Between two line items of a run, the later steps keep vendors and receipts and change orders only in received quantities. |
| Ingestion.ForEachItemKeepsConsistent | invoice_utils.py:136-173 | A run keeps the store's keys unique. |
| Ingestion.ForEachItemReceivedGrows | invoice_utils.py:166-173 | A run over non-negative quantities never lowers a received quantity. |
| Ingestion.ProcessItemSucceeds | invoice_utils.py:157-173 | A line item fails exactly when the invoice date does not read or a known vendor's due date overflows. |
| Ingestion.ProcessItemReconciles | invoice_utils.py:166-173 | A line item that goes through is reconciled against its purchase order. The step's receipts and orders are the delivery of its quantity under the invoice's waybill and date, applied to the store the step started from: one new receipt and the order raised, or nothing when there is no vendor, no order, or a receipt already. |
| Ingestion.ReminderFollowsPlan | invoice_utils.py:157-164 | Under a plan, the reminder step succeeds, reports the plan's note and appends the plan's reminder, if any. |
| Ingestion.ProcessItemFollowsPlan | invoice_utils.py:149-173 | Under a plan, a line item takes the next id, keeps the identity counters ahead, reports the plan's note and appends the plan's reminder for that line-item id. |
| Ingestion.ProcessItemKeepsConsistent | invoice_utils.py:136-173 | A successful line item keeps the store's keys unique. |
| Ingestion.ProcessItemReceivedGrows | invoice_utils.py:166-173 | A line item of non-negative quantity never lowers a received quantity. |
| Ingestion.ProcessItemSameOrderOnce | invoice_utils.py:166-173 | Once one line item has been reconciled, a later line item of the invoice with the same description records no receipt and changes no order. |
| Ingestion.InsertInvoice | invoice_utils.py:97-179 | A known waybill returns the skip outcome with the store unchanged. A new waybill that succeeds appends one header with the next invoice id and one line item per input item, in order and with consecutive ids. It keeps vendors, changes orders only in received quantities, only appends reminders and receipts, and reports success. |
| Ingestion.InsertHeaderKeeps | invoice_utils.py:113-126 | A new waybill's header keeps the identity counters ahead of the rows and the waybills unique. |
| Ingestion.InsertInvoiceFails | invoice_utils.py:136-173 | A new invoice fails exactly when it has a line item whose invoice date does not read or whose known vendor's due date overflows. Without line items it always succeeds. |
| Ingestion.InsertInvoiceReminders | invoice_utils.py:133-179 | For a new invoice whose dates work out, each line item gets the plan's reminder with its own line-item id (none for an unknown vendor). The returned body is the last line item's note, or `None` without line items. |
| Ingestion.InsertInvoiceNoItems | invoice_utils.py:133-136 | A new invoice without line items writes only its header and returns `None` as the body, whether or not its date would read. |
| Ingestion.InsertInvoiceReconciles | invoice_utils.py:136-173 | Every line item of a new invoice is reconciled. From the run before item `k` to the run after it, receipts and orders change by exactly that item's delivery under the invoice's waybill and date. |
| Ingestion.InsertInvoiceTwice | invoice_utils.py:101-111 | After a successful ingestion the waybill is present, so ingesting the same invoice again returns the skip outcome and writes nothing. |
| Ingestion.InsertInvoiceKeepsConsistent | invoice_utils.py:101-179 | Ingestion keeps the store consistent, and afterwards exactly one invoice carries the waybill. |
| Ingestion.InsertInvoiceReceivedGrows | invoice_utils.py:166-173 | Ingesting line items of non-negative quantity never lowers a received quantity. |
| Ingestion.InsertInvoiceSameOrderOnce | invoice_utils.py:166-173 | In one new invoice, a later line item with the same description as an earlier one records no receipt and changes no received quantity. |
| JsonBlock.FirstIndex | invoice_utils.py:12 | The position found is the first `{`, or none when there is no `{`. |
| JsonBlock.LastIndex | invoice_utils.py:12 | The position found is the last `}`, or none when there is no `}`. |
| JsonBlock.BraceBounds | invoice_utils.py:12 | A span found starts with `{` and ends, later, with `}`. |
| JsonBlock.BraceSpan | invoice_utils.py:12 | The selected text begins with `{`, ends with `}` and is at least two characters long. |
| JsonBlock.BraceBoundsLeftmostLongest | invoice_utils.py:12 | A span is found exactly when some `{` precedes some `}`. It is the leftmost match of `\{.*\}` and, among matches starting there, the longest. |
| JsonBlock.BraceSpanExample | invoice_utils.py:8-15 | Text around a nested object yields the outermost object; a `}` before the only `{` yields nothing. |
| Scenario.ScenarioIngestion | invoice_utils.py:97-282 | A first invoice (waybill AWB123, 01/01/2024, vendor Acme with 30 credit days, one line of 10 against an open order of 10) stores exactly one header, one line item, a reminder due 31/01/2024, one receipt and a received quantity of 10. Submitting it again writes nothing. |

## Left out

- `sql_connection` and its credentials and environment checks (invoice_utils.py:29-55): connection plumbing with no workflow logic.
- `get_invoice_count`, `get_vendor_count`, `get_po_count` (invoice_utils.py:58-95): one-line `COUNT(*)` wrappers.
- Streamlit messages, the `session_state` slot and `print` (for example invoice_utils.py:108, 154, 197, 210-218, 279-282): display side channels. Outcomes are returned as tags (`Reply`, `ReminderNote`, `DeliveryNote`) instead of message strings.
- Transactions: `conn.commit()` (invoice_utils.py:175) is modelled as "an `Err` commits nothing". Identity values taken by inserts that are rolled back are not given back by SQL Server, so after an `Err` the real counters have advanced while the model's have not. No proved property depends on this: `IdentityOk` holds either way, because a counter that only grows stays above every stored identifier. Concurrent ingestions and the race between an insert and its max-id query are out of scope.
- `json.loads` (invoice_utils.py:13): library parsing. Only the span handed to it is modelled; a failed search is `None`, which the source turns into `ValueError`.
- Missing record keys and a NULL waybill. Header fields are strings, and the waybill is always present. A line item's description may be missing, which the code handles: it is stored as `''` and the order lookup finds nothing.
- Unit prices, totals and amounts (invoice_utils.py:144-146, 161, 206): opaque strings, passed through uninspected.
- `int(quantity)` (invoice_utils.py:252): quantities are integers from the start. The receipt stores the same quantity (invoice_utils.py:269).
- The f-string quoting of the reminder insert (invoice_utils.py:204-207): the model records only the intended values, `rem.waybill == waybill` and the amount as given. The code pastes the waybill and amount unescaped between apostrophes. Unbalanced apostrophes (a waybill `O'Hare`) make that `INSERT` raise for a known vendor, which aborts the whole ingestion with no commit; the model records the reminder instead. Balanced ones are read as SQL quoting: a waybill `A''B` is stored as `A'B`, so the stored waybill or amount differs from the model's. Crafted text such as `X', '9') --` still forms a valid statement and changes what the remaining columns receive.
- Ingestion.ProcessItemSucceeds: "fails exactly when" holds within the model only. For a known vendor, the code also fails when the waybill or the line-item total holds apostrophes that leave the reminder `INSERT` unbalanced, because of the f-string quoting above.
- Ingestion.InsertInvoiceFails: likewise, for a new invoice the code also fails when the vendor is known and the waybill, or a line item's total, holds apostrophes that leave the reminder `INSERT` unbalanced.
- DateText.ParseDate: reads ASCII digits only. `strptime` matches `\d` against any Unicode decimal digit, so it also reads a four-digit year, or the second digit of a day from 10 to 29, written in another script (for example Arabic-Indic digits); the model reports those texts as malformed.
- String comparison in lookups (invoice_utils.py:104, 128, 189-192, 227-229, 241-244, 255-258): the model compares waybills, vendor names and item descriptions character for character. The code runs these queries on SQL Server (ODBC Driver 17, invoice_utils.py:50), whose `=` ignores trailing spaces and, under the default case-insensitive collation, letter case. There "AWB123 " matches a stored "AWB123" and "acme" matches "Acme"; in the model neither does. Every lookup, duplicate check and receipt check is stated for character-exact comparison only.
- Deliveries.ReconcileTouchesOneOrder: the received quantity is non-decreasing only when the delivered quantity is non-negative, because the code does not guard against negative quantities. An invariant that received quantities never fall unconditionally would not hold of the code; this model follows the code.
- Ingestion.InsertInvoiceReceivedGrows: requires every line item's quantity to be non-negative, for the same reason.
