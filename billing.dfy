/**
 * billing.py: the bill calculator, the figures an invoice shows for a stored
 * service, and the per-customer count and sum of services. Nothing here
 * changes the tables.
 */
module Billing {
  import opened Wrappers
  import opened Config
  import opened Sorting
  import opened DomainRules
  import opened Database
  import opened Joins
  import opened PyNumbers

  // ---------------------------------------------------------- calculate_bill

  /** The `bill_details` dictionary. */
  datatype Bill = Bill(laborCost: real, partsCost: real, subtotal: real, tax: real, taxRate: real, total: real)

  /** `(success, message, bill_details)`; the details are None on failure. */
  datatype BillOutcome = BillOutcome(success: bool, message: string, details: Option<Bill>)

  /**
   * `calculate_bill`: both inputs go through `float()` before either is
   * checked for sign, so a non-numeric input wins over a negative one.
   */
  function CalculateBill(laborCost: Numeric, partsCost: Numeric): (r: BillOutcome)
    ensures r.success <==> r.details.Some?
    ensures laborCost.NonNumeric? || partsCost.NonNumeric? ==>
      r == BillOutcome(false, "Invalid cost values", None)
    ensures laborCost.Num? && partsCost.Num? && (laborCost.value < 0.0 || partsCost.value < 0.0) ==>
      r == BillOutcome(false, "Costs cannot be negative", None)
    ensures r.success ==>
      var b := r.details.value;
      && r.message == "Bill calculated successfully"
      && b.laborCost == laborCost.value && b.partsCost == partsCost.value
      && b.subtotal == b.laborCost + b.partsCost && b.tax == b.subtotal * TaxRate
      && b.total == b.subtotal + b.tax && b.taxRate == TaxRate * 100.0
  {
    if laborCost.NonNumeric? || partsCost.NonNumeric? then BillOutcome(false, "Invalid cost values", None)
    else
      var labor, parts := laborCost.value, partsCost.value;
      if labor < 0.0 || parts < 0.0 then BillOutcome(false, "Costs cannot be negative", None)
      else
        var subtotal := labor + parts;
        var tax := subtotal * TaxRate;
        BillOutcome(true, "Bill calculated successfully",
                    Some(Bill(labor, parts, subtotal, tax, TaxRate * 100.0, subtotal + tax)))
  }

  /**
   * The calculator accepts exactly the costs `add_service` accepts, and its
   * total is the total `add_service` stores for them.
   */
  lemma BillAgreesWithStoredTotal(laborCost: Numeric, partsCost: Numeric)
    ensures CalculateBill(laborCost, partsCost).success <==> ValidateCost(laborCost) && ValidateCost(partsCost)
    ensures CalculateBill(laborCost, partsCost).success ==>
      CalculateBill(laborCost, partsCost).details.value.total == TotalWithTax(laborCost.value, partsCost.value)
  {
  }

  /** 50 of labour and 30 of parts make a bill of 86.40 at 8%. */
  lemma BillExample()
    ensures CalculateBill(Num(50.0), Num(30.0)).details
         == Some(Bill(50.0, 30.0, 80.0, 6.4, 8.0, 86.4))
  {
  }

  // -------------------------------------------------------- generate_invoice

  /** The money lines of an invoice. */
  datatype Charges = Charges(laborCost: real, partsCost: real, subtotal: real, tax: real, total: real)

  /** What the invoice text is made from: the joined row and its charges. */
  datatype Invoice = Invoice(record: ServiceRecord, charges: Charges)

  /** `(False, "Service not found")`, or `(True, text)` with the text made from an `Invoice`. */
  datatype InvoiceOutcome = Failed(message: string) | Invoiced(invoice: Invoice)

  /**
   * `generate_invoice` up to the text layout: the joined row of the service,
   * the stored labour and parts, a subtotal and tax recomputed from them with
   * the current TAX_RATE, and the stored total.
   */
  function GenerateInvoice(t: Tables, serviceId: int): (r: InvoiceOutcome)
    ensures r.Invoiced? <==> Joinable(t, serviceId)
    ensures r.Failed? ==> r.message == "Service not found"
    ensures r.Invoiced? ==>
      r.invoice.record == Record(t, serviceId)
      && var s, c := t.services[serviceId], r.invoice.charges;
      && c.laborCost == s.laborCost && c.partsCost == s.partsCost
      && c.subtotal == s.laborCost + s.partsCost && c.tax == c.subtotal * TaxRate
      && c.total == s.totalCost
  {
    if !Joinable(t, serviceId) then Failed("Service not found")
    else
      var s := t.services[serviceId];
      var subtotal := s.laborCost + s.partsCost;
      var charges := Charges(s.laborCost, s.partsCost, subtotal, subtotal * TaxRate, s.totalCost);
      Invoiced(Invoice(Record(t, serviceId), charges))
  }

  /**
   * On well-formed tables the stored TOTAL of an invoice is its subtotal plus
   * its tax, and its figures are those the bill calculator gives for the
   * stored costs.
   */
  lemma InvoiceAddsUp(t: Tables, serviceId: int)
    requires WellFormed(t) && Joinable(t, serviceId)
    ensures var c := GenerateInvoice(t, serviceId).invoice.charges;
      && c.total == c.subtotal + c.tax
      && var b := CalculateBill(Num(c.laborCost), Num(c.partsCost)).details.value;
      && b.subtotal == c.subtotal && b.tax == c.tax && b.total == c.total
  {
    assert ServiceRowOk(t.services[serviceId]);
  }

  /**
   * Lines 52-53 as they run: the driver returns the DECIMAL columns as
   * Decimal, and `subtotal * config.TAX_RATE` multiplies a Decimal by a
   * float, which raises TypeError (None).
   */
  function InvoiceTaxAsWritten(s: Service): Option<real>
  {
    match Add(PyDecimal(s.laborCost), PyDecimal(s.partsCost))
    case None => None
    case Some(subtotal) =>
      match Mul(subtotal, PyFloat(TaxRate))
      case None => None
      case Some(tax) => Some(tax.value)
  }

  /** As written, no stored service gets an invoice: the tax line always raises. */
  lemma InvoiceTaxAlwaysRaises(s: Service)
    ensures InvoiceTaxAsWritten(s) == None
  {
  }

  // ---------------------------------------------- get_customer_billing_summary

  /** One aggregate row: `customer_id, name, phone, COUNT(service_id), SUM(total_cost)`. */
  datatype Summary = Summary(customerId: int, name: string, phone: string,
                             totalServices: nat, totalSpent: Option<real>)

  datatype SummaryOutcome = SummaryOutcome(success: bool, message: string, summary: Option<Summary>)

  function TotalOf(r: ServiceRecord): real
  {
    r.service.totalCost
  }

  /**
   * `get_customer_billing_summary`: the LEFT JOINs keep a customer without
   * vehicles or services, with a count of 0 and a SUM of NULL.
   */
  function CustomerBillingSummary(t: Tables, customerId: int): (r: SummaryOutcome)
    ensures r.success <==> customerId in t.customers
    ensures !r.success ==> r.message == "Customer not found" && r.summary.None?
    ensures r.success ==>
      && r.message == "Billing summary retrieved" && r.summary.Some?
      && var s := r.summary.value;
      && s.customerId == customerId
      && s.name == t.customers[customerId].name && s.phone == t.customers[customerId].phone
      && s.totalServices == |CustomerServices(t, customerId)|
      && (s.totalSpent.None? <==> s.totalServices == 0)
      && (s.totalSpent.Some? ==> s.totalSpent.value == SumBy(Ordered(t, CustomerServices(t, customerId), NewestKey), TotalOf))
  {
    if customerId !in t.customers then SummaryOutcome(false, "Customer not found", None)
    else
      var ks := CustomerServices(t, customerId);
      var ids := SortedIds(ks);
      assert forall i | 0 <= i < |ids| :: Joinable(t, ids[i]) by {
        forall i | 0 <= i < |ids| ensures Joinable(t, ids[i]) {
          assert ids[i] in ids;
        }
      }
      var rows := RecordsFor(t, ids);
      SumBySorted(rows, NewestKey, TotalOf);
      var c := t.customers[customerId];
      SummaryOutcome(true, "Billing summary retrieved",
                     Some(Summary(customerId, c.name, c.phone, |ks|, if |ks| == 0 then None else Some(SumBy(rows, TotalOf)))))
  }

  /** `summary[4] if summary[4] else 0`: the amount the summary shows. */
  function ShownSpent(s: Summary): real
  {
    if s.totalSpent.Some? then s.totalSpent.value else 0.0
  }

  /**
   * The amount shown is the sum of the customer's service totals in every
   * case, 0 for a customer without services included.
   */
  lemma ShownSpentIsSum(t: Tables, customerId: int)
    requires customerId in t.customers
    ensures ShownSpent(CustomerBillingSummary(t, customerId).summary.value)
         == SumBy(Ordered(t, CustomerServices(t, customerId), NewestKey), TotalOf)
  {
    var rows := Ordered(t, CustomerServices(t, customerId), NewestKey);
    if |CustomerServices(t, customerId)| == 0 {
      assert rows == [];
    }
  }
}
