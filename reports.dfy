/**
 * reports.py: the service-history queries (per customer, per vehicle, all
 * services) and the totals the screen report and the exported report add up
 * over the records they are given.
 */
module Reports {
  import opened Wrappers
  import opened Text
  import opened Calendar
  import opened Sorting
  import opened DomainRules
  import opened Database
  import opened Joins
  import Billing

  /** The outcome of a history query: `(True, "Found n service record(s)", history)`. */
  datatype Found = Found(success: bool, message: string, rows: seq<ServiceRecord>)

  function History(t: Tables, ks: set<int>): (r: Found)
    requires forall sid | sid in ks :: Joinable(t, sid)
  {
    var rows := Ordered(t, ks, NewestKey);
    Found(true, "Found " + NatToString(|rows|) + " service record(s)", rows)
  }

  /**
   * `get_service_history_by_customer`: every service on a vehicle the
   * customer owns, newest service date first.
   */
  function ServiceHistoryByCustomer(t: Tables, customerId: int): (r: Found)
    ensures r.success && r.message == "Found " + NatToString(|r.rows|) + " service record(s)"
    ensures forall i | 0 <= i < |r.rows| ::
      Joinable(t, r.rows[i].serviceId) && r.rows[i] == Record(t, r.rows[i].serviceId)
    ensures forall sid :: sid in ServiceIds(r.rows) <==>
      Joinable(t, sid) && t.vehicles[t.services[sid].vehicleId].customerId == customerId
    ensures forall i, j | 0 <= i < j < |r.rows| ::
      DateKey(r.rows[j].service.serviceDate) <= DateKey(r.rows[i].service.serviceDate)
  {
    var r := History(t, CustomerServices(t, customerId));
    NewestFirstOrder(r.rows);
    r
  }

  /** `get_service_history_by_vehicle`: every service of the vehicle, newest first. */
  function ServiceHistoryByVehicle(t: Tables, vehicleId: int): (r: Found)
    ensures r.success && r.message == "Found " + NatToString(|r.rows|) + " service record(s)"
    ensures forall i | 0 <= i < |r.rows| ::
      Joinable(t, r.rows[i].serviceId) && r.rows[i] == Record(t, r.rows[i].serviceId)
    ensures forall sid :: sid in ServiceIds(r.rows) <==>
      Joinable(t, sid) && t.services[sid].vehicleId == vehicleId
    ensures forall i, j | 0 <= i < j < |r.rows| ::
      DateKey(r.rows[j].service.serviceDate) <= DateKey(r.rows[i].service.serviceDate)
  {
    var r := History(t, set sid | sid in t.services && Joinable(t, sid) && t.services[sid].vehicleId == vehicleId);
    NewestFirstOrder(r.rows);
    r
  }

  /** `get_all_services_report`: every joinable service, newest first. */
  function AllServicesReport(t: Tables): (r: Found)
    ensures r.success && r.message == "Found " + NatToString(|r.rows|) + " service record(s)"
    ensures forall i | 0 <= i < |r.rows| ::
      Joinable(t, r.rows[i].serviceId) && r.rows[i] == Record(t, r.rows[i].serviceId)
    ensures forall sid :: sid in ServiceIds(r.rows) <==> Joinable(t, sid)
    ensures forall i, j | 0 <= i < j < |r.rows| ::
      DateKey(r.rows[j].service.serviceDate) <= DateKey(r.rows[i].service.serviceDate)
  {
    var r := History(t, set sid | sid in t.services && Joinable(t, sid));
    NewestFirstOrder(r.rows);
    r
  }

  /** Under the foreign keys the report of all services holds every service, each once. */
  lemma AllServicesReportIsComplete(t: Tables)
    requires SchemaHolds(t)
    ensures forall sid :: sid in ServiceIds(AllServicesReport(t).rows) <==> sid in t.services
    ensures |AllServicesReport(t).rows| == |t.services|
  {
    var ks := set sid | sid in t.services && Joinable(t, sid);
    assert ks == t.services.Keys;
  }

  /** A vehicle's history is part of its owner's history. */
  lemma VehicleHistoryWithinOwnerHistory(t: Tables, vehicleId: int)
    requires vehicleId in t.vehicles
    ensures forall sid | sid in ServiceIds(ServiceHistoryByVehicle(t, vehicleId).rows) ::
      sid in ServiceIds(ServiceHistoryByCustomer(t, t.vehicles[vehicleId].customerId).rows)
  {
  }

  /**
   * The billing summary of a customer agrees with that customer's history:
   * its count is the number of records and the amount it shows is their sum.
   */
  lemma SummaryAgreesWithHistory(t: Tables, customerId: int)
    requires customerId in t.customers
    ensures var s := Billing.CustomerBillingSummary(t, customerId).summary.value;
      var rows := ServiceHistoryByCustomer(t, customerId).rows;
      && s.totalServices == |rows|
      && Billing.ShownSpent(s) == SumBy(rows, Billing.TotalOf)
  {
    Billing.ShownSpentIsSum(t, customerId);
  }

  // ------------------------------------------------------------- totals

  /** `total_labor`, `total_parts` and `total_cost` after the loop over the records. */
  datatype Totals = Totals(labor: real, parts: real, total: real)

  function LaborOf(r: ServiceRecord): real { r.service.laborCost }

  function PartsOf(r: ServiceRecord): real { r.service.partsCost }

  /** The three column sums over the records. */
  function HistoryTotals(history: seq<ServiceRecord>): Totals
  {
    Totals(SumBy(history, LaborOf), SumBy(history, PartsOf), SumBy(history, Billing.TotalOf))
  }

  /**
   * When every record's total was computed from its costs, the summed total
   * is the taxed sum of the summed costs.
   */
  lemma {:induction false} TotalsAddUp(history: seq<ServiceRecord>)
    requires forall i | 0 <= i < |history| ::
      (history[i].service.totalCost == TotalWithTax(history[i].service.laborCost, history[i].service.partsCost))
    ensures var s := HistoryTotals(history); s.total == TotalWithTax(s.labor, s.parts)
  {
    if history != [] {
      var front := history[..|history| - 1];
      TotalsAddUp(front);
    }
  }

  /** Totals of joined rows read from well-formed tables add up. */
  lemma JoinedTotalsAddUp(t: Tables, rows: seq<ServiceRecord>)
    requires WellFormed(t)
    requires forall i | 0 <= i < |rows| :: Joinable(t, rows[i].serviceId) && rows[i] == Record(t, rows[i].serviceId)
    ensures var s := HistoryTotals(rows); s.total == TotalWithTax(s.labor, s.parts)
  {
    forall i | 0 <= i < |rows|
      ensures rows[i].service.totalCost == TotalWithTax(rows[i].service.laborCost, rows[i].service.partsCost)
    {
      var sid := rows[i].serviceId;
      assert Joinable(t, sid) && rows[i] == Record(t, sid);
      assert rows[i].service == t.services[sid];
      assert ServiceRowOk(t.services[sid]);
    }
    TotalsAddUp(rows);
  }

  /** The TOTALS line of a customer's history adds up on well-formed tables. */
  lemma ReportTotalsAddUp(t: Tables, customerId: int)
    requires WellFormed(t)
    ensures var s := HistoryTotals(ServiceHistoryByCustomer(t, customerId).rows);
      s.total == TotalWithTax(s.labor, s.parts)
  {
    JoinedTotalsAddUp(t, ServiceHistoryByCustomer(t, customerId).rows);
  }

  /** The TOTALS line of a vehicle's history adds up on well-formed tables. */
  lemma VehicleReportTotalsAddUp(t: Tables, vehicleId: int)
    requires WellFormed(t)
    ensures var s := HistoryTotals(ServiceHistoryByVehicle(t, vehicleId).rows);
      s.total == TotalWithTax(s.labor, s.parts)
  {
    JoinedTotalsAddUp(t, ServiceHistoryByVehicle(t, vehicleId).rows);
  }

  /** The TOTALS line of the report of all services adds up on well-formed tables. */
  lemma AllReportTotalsAddUp(t: Tables)
    requires WellFormed(t)
    ensures var s := HistoryTotals(AllServicesReport(t).rows);
      s.total == TotalWithTax(s.labor, s.parts)
  {
    JoinedTotalsAddUp(t, AllServicesReport(t).rows);
  }

  /**
   * The loop of `display_service_history` and `export_service_history`:
   * running sums of labour, parts and total over the records, in order.
   */
  method SumRecords(history: seq<ServiceRecord>) returns (totals: Totals)
    ensures totals == HistoryTotals(history)
  {
    var labor, parts, total := 0.0, 0.0, 0.0;
    var i := 0;
    while i < |history|
      invariant 0 <= i <= |history|
      invariant labor == SumBy(history[..i], LaborOf)
      invariant parts == SumBy(history[..i], PartsOf)
      invariant total == SumBy(history[..i], Billing.TotalOf)
    {
      assert history[..i + 1][..i] == history[..i];
      labor := labor + history[i].service.laborCost;
      parts := parts + history[i].service.partsCost;
      total := total + history[i].service.totalCost;
      i := i + 1;
    }
    assert history[..i] == history;
    totals := Totals(labor, parts, total);
  }

  /**
   * `display_service_history` without the printing: nothing for an empty
   * history, otherwise the TOTALS line's three sums.
   */
  method DisplayServiceHistory(history: seq<ServiceRecord>) returns (shown: Option<Totals>)
    ensures shown.None? <==> history == []
    ensures shown.Some? ==> shown.value == HistoryTotals(history)
  {
    if history == [] {
      return None;
    }
    var totals := SumRecords(history);
    shown := Some(totals);
  }

  /** The SUMMARY block of an exported report. */
  datatype ExportSummary = ExportSummary(totals: Totals, services: nat)

  /** `service_history_{timestamp}.txt`, the name used when none is given. */
  function DefaultFileName(timestamp: string): string
  {
    "service_history_" + timestamp + ".txt"
  }

  /**
   * `export_service_history` without the file writing: an empty history is
   * refused before any file is named; otherwise the SUMMARY's sums and count
   * and the success message naming the file. `timestamp` stands for
   * `datetime.now().strftime('%Y%m%d_%H%M%S')`.
   */
  method ExportServiceHistory(history: seq<ServiceRecord>, filename: Option<string>, timestamp: string)
    returns (success: bool, message: string, summary: Option<ExportSummary>)
    ensures history == [] ==> !success && message == "No data to export" && summary.None?
    ensures history != [] ==>
      && success && summary == Some(ExportSummary(HistoryTotals(history), |history|))
      && message == "Report exported successfully to "
                    + (if Given(filename) then filename.value else DefaultFileName(timestamp))
  {
    if history == [] {
      return false, "No data to export", None;
    }
    var name := if filename.Some? && filename.value != [] then filename.value else DefaultFileName(timestamp);
    var totals := SumRecords(history);
    success, message, summary := true, "Report exported successfully to " + name,
                                 Some(ExportSummary(totals, |history|));
  }
}
