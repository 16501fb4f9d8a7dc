/**
 * service_manager.py: recording, correcting, deleting and searching service
 * records, and the reminders for services coming due. Each mutating operation
 * returns `(success, message)` and runs its checks in the source's order; the
 * first failing check decides the message and leaves the store as it was.
 */
module ServiceManager {
  import opened Wrappers
  import opened Text
  import opened Calendar
  import opened Config
  import opened Sorting
  import opened DomainRules
  import opened Database
  import opened Joins
  import opened PyNumbers

  // -------------------------------------------------------------- add

  /** The row `add_service` inserts: costs as given, the taxed total and the next service date. */
  function NewService(vehicleId: int, d: Date, description: string, labor: real, parts: real): Service
    requires IsValidDate(d)
  {
    Service(vehicleId, d, description, labor, parts, TotalWithTax(labor, parts), NextServiceDate(d))
  }

  /** `f"Service added successfully (ID: {id}, Total: ${total:.2f}, Next Service: {next})"`. */
  function AddedMessage(id: nat, total: real, next: Option<string>): string
    requires total >= 0.0
  {
    "Service added successfully (ID: " + NatToString(id) + ", Total: $" + TwoDecimals(total)
    + ", Next Service: " + (if next.Some? then next.value else "None") + ")"
  }

  /** `add_service`. */
  method AddService(db: Store, vehicleId: int, serviceDate: string, description: string,
                    laborCost: Numeric, partsCost: Numeric)
    returns (success: bool, message: string)
    requires db.Valid() && WellFormed(db.Snapshot())
    modifies db
    ensures db.Valid() && WellFormed(db.Snapshot())
    ensures vehicleId == 0 ==> !success && message == "Vehicle ID is required"
    ensures vehicleId != 0 && !ValidateDate(serviceDate) ==>
      !success && message == "Invalid service date (use YYYY-MM-DD format)"
    ensures vehicleId != 0 && ValidateDate(serviceDate) && !HasText(description) ==>
      !success && message == "Description cannot be empty"
    ensures vehicleId != 0 && ValidateDate(serviceDate) && HasText(description) && !ValidateCost(laborCost) ==>
      !success && message == "Invalid labor cost"
    ensures (vehicleId != 0 && ValidateDate(serviceDate) && HasText(description) && ValidateCost(laborCost)
             && !ValidateCost(partsCost)) ==>
      !success && message == "Invalid parts cost"
    ensures (vehicleId != 0 && ValidateDate(serviceDate) && HasText(description) && ValidateCost(laborCost)
             && ValidateCost(partsCost) && vehicleId !in old(db.vehicles)) ==>
      !success && message == "Vehicle not found"
    ensures success <==>
      vehicleId != 0 && ValidateDate(serviceDate) && HasText(description)
      && ValidateCost(laborCost) && ValidateCost(partsCost) && vehicleId in old(db.vehicles)
    ensures !success ==> unchanged(db)
    ensures success ==>
      var id := old(db.nextServiceId);
      var d := ParseDate(serviceDate).value;
      var labor, parts := laborCost.value, partsCost.value;
      && id !in old(db.services)
      && db.services == old(db.services)[id := NewService(vehicleId, d, description, labor, parts)]
      && db.services[id].totalCost == (labor + parts) + (labor + parts) * TaxRate
      && db.customers == old(db.customers) && db.vehicles == old(db.vehicles)
      && message == AddedMessage(id, TotalWithTax(labor, parts), CalculateNextServiceDate(serviceDate))
  {
    if vehicleId == 0 {
      return false, "Vehicle ID is required";
    }
    if serviceDate == [] || !ValidateDate(serviceDate) {
      return false, "Invalid service date (use YYYY-MM-DD format)";
    }
    if !HasText(description) {
      return false, "Description cannot be empty";
    }
    if !ValidateCost(laborCost) {
      return false, "Invalid labor cost";
    }
    if !ValidateCost(partsCost) {
      return false, "Invalid parts cost";
    }
    if vehicleId !in db.vehicles {
      return false, "Vehicle not found";
    }
    var d := ParseDate(serviceDate).value;
    var labor, parts := laborCost.value, partsCost.value;
    var total := TotalWithTax(labor, parts);
    var next := CalculateNextServiceDate(serviceDate);
    var row := NewService(vehicleId, d, description, labor, parts);
    PutServiceKeepsRules(db.Snapshot(), db.nextServiceId, row);
    var id := db.InsertService(row);
    success, message := true, AddedMessage(id, total, next);
  }

  // ----------------------------------------------------------- update

  /** The columns an `UPDATE services SET ...` statement can name. */
  datatype Column = DateColumn | NextDateColumn | DescriptionColumn | LaborColumn | PartsColumn | TotalColumn

  /** `service_date` is given and `validate_date` refuses it. */
  predicate DateRejected(date: Option<string>)
  {
    Given(date) && !ValidateDate(date.value)
  }

  /** A cost is supplied (`is not None`, so 0 counts) and `validate_cost` refuses it. */
  predicate CostRejected(cost: Option<Numeric>)
  {
    cost.Some? && !ValidateCost(cost.value)
  }

  /**
   * The service row `update_service` writes once its checks pass: a given date
   * brings its next service date along, a blank description is skipped, and
   * the total is recomputed from the new-or-current costs when either cost is
   * supplied.
   */
  function UpdatedService(was: Service, date: Option<string>, description: Option<string>,
                          labor: Option<Numeric>, parts: Option<Numeric>): Service
    requires !DateRejected(date) && !CostRejected(labor) && !CostRejected(parts)
  {
    var d := if Given(date) then ParseDate(date.value).value else was.serviceDate;
    var l := if labor.Some? then labor.value.value else was.laborCost;
    var p := if parts.Some? then parts.value.value else was.partsCost;
    Service(was.vehicleId, d,
            if Filled(description) then description.value else was.description,
            l, p,
            if labor.Some? || parts.Some? then TotalWithTax(l, p) else was.totalCost,
            if Given(date) then NextServiceDate(d) else was.nextServiceDate)
  }

  /**
   * The middle of `update_service`: walks the optional arguments in order,
   * validating what it is given, and collects the columns of the `UPDATE` (in
   * `updates`) and the row they produce. Stops at the first invalid value.
   */
  method CollectUpdates(was: Service, date: Option<string>, description: Option<string>,
                        labor: Option<Numeric>, parts: Option<Numeric>)
    returns (updates: seq<Column>, row: Service, error: Option<string>)
    ensures DateRejected(date) ==> error == Some("Invalid service date (use YYYY-MM-DD format)")
    ensures !DateRejected(date) && CostRejected(labor) ==> error == Some("Invalid labor cost")
    ensures !DateRejected(date) && !CostRejected(labor) && CostRejected(parts) ==>
      error == Some("Invalid parts cost")
    ensures error.None? <==> !DateRejected(date) && !CostRejected(labor) && !CostRejected(parts)
    ensures error.None? ==>
      && |updates| == (if Given(date) then 2 else 0) + (if Filled(description) then 1 else 0)
                      + (if labor.Some? then 1 else 0) + (if parts.Some? then 1 else 0)
                      + (if labor.Some? || parts.Some? then 1 else 0)
      && (updates == [] <==> !Given(date) && !Filled(description) && labor.None? && parts.None?)
    ensures error.None? ==> row == UpdatedService(was, date, description, labor, parts)
  {
    row := was;
    updates := [];
    var currentLabor, currentParts := was.laborCost, was.partsCost;
    if date.Some? && date.value != [] {
      if !ValidateDate(date.value) {
        return updates, row, Some("Invalid service date (use YYYY-MM-DD format)");
      }
      var d := ParseDate(date.value).value;
      updates := updates + [DateColumn, NextDateColumn];
      row := row.(serviceDate := d, nextServiceDate := NextServiceDate(d));
    }
    if description.Some? && HasText(description.value) {
      updates := updates + [DescriptionColumn];
      row := row.(description := description.value);
    }
    if labor.Some? {
      if !ValidateCost(labor.value) {
        return updates, row, Some("Invalid labor cost");
      }
      currentLabor := labor.value.value;
      updates := updates + [LaborColumn];
      row := row.(laborCost := currentLabor);
    }
    if parts.Some? {
      if !ValidateCost(parts.value) {
        return updates, row, Some("Invalid parts cost");
      }
      currentParts := parts.value.value;
      updates := updates + [PartsColumn];
      row := row.(partsCost := currentParts);
    }
    if labor.Some? || parts.Some? {
      updates := updates + [TotalColumn];
      row := row.(totalCost := TotalWithTax(currentLabor, currentParts));
    }
    error := None;
  }

  /** Whatever passes the checks of `update_service` keeps a valid row valid. */
  lemma UpdateKeepsRowRules(was: Service, date: Option<string>, description: Option<string>,
                            labor: Option<Numeric>, parts: Option<Numeric>)
    requires ServiceRowOk(was)
    requires !DateRejected(date) && !CostRejected(labor) && !CostRejected(parts)
    ensures ServiceRowOk(UpdatedService(was, date, description, labor, parts))
  {
    var r := UpdatedService(was, date, description, labor, parts);
    assert IsValidDate(r.serviceDate) && r.nextServiceDate == NextServiceDate(r.serviceDate) by {
      if Given(date) {
        assert r.serviceDate == ParseDate(date.value).value;
      } else {
        assert r.serviceDate == was.serviceDate && r.nextServiceDate == was.nextServiceDate;
      }
    }
    assert HasText(r.description) by {
      if Filled(description) { assert r.description == description.value; } else { assert r.description == was.description; }
    }
    assert r.laborCost >= 0.0 && r.partsCost >= 0.0;
    assert r.totalCost == TotalWithTax(r.laborCost, r.partsCost) by {
      if labor.None? && parts.None? {
        assert r.totalCost == was.totalCost && r.laborCost == was.laborCost && r.partsCost == was.partsCost;
      }
    }
  }

  /**
   * Lines 135-138 as they run: the current costs come from the database row,
   * which the driver hands back as Decimal; a supplied cost has been through
   * `float()`. Adding a float to a Decimal raises TypeError, returned as None.
   */
  function RecomputedTotalAsWritten(was: Service, labor: Option<Numeric>, parts: Option<Numeric>): Option<real>
    requires !CostRejected(labor) && !CostRejected(parts)
  {
    var l := if labor.Some? then PyFloat(labor.value.value) else PyDecimal(was.laborCost);
    var p := if parts.Some? then PyFloat(parts.value.value) else PyDecimal(was.partsCost);
    match Add(l, p)
    case None => None
    case Some(subtotal) =>
      match Mul(subtotal, PyFloat(TaxRate))
      case None => None
      case Some(tax) =>
        match Add(subtotal, tax)
        case None => None
        case Some(total) => Some(total.value)
  }

  /**
   * As written, supplying exactly one of the two costs raises TypeError instead
   * of storing a total; supplying both computes the total `UpdatedService`
   * stores in every case.
   */
  lemma OneSuppliedCostRaises(was: Service, labor: Option<Numeric>, parts: Option<Numeric>)
    requires !CostRejected(labor) && !CostRejected(parts)
    ensures labor.Some? != parts.Some? ==> RecomputedTotalAsWritten(was, labor, parts) == None
    ensures labor.Some? && parts.Some? ==>
      RecomputedTotalAsWritten(was, labor, parts) == Some(TotalWithTax(labor.value.value, parts.value.value))
  {
  }

  /** `update_service`. */
  method UpdateService(db: Store, serviceId: int, date: Option<string>, description: Option<string>,
                       labor: Option<Numeric>, parts: Option<Numeric>)
    returns (success: bool, message: string)
    requires db.Valid() && WellFormed(db.Snapshot())
    modifies db
    ensures db.Valid() && WellFormed(db.Snapshot())
    ensures serviceId == 0 ==> !success && message == "Service ID is required"
    ensures serviceId != 0 && serviceId !in old(db.services) ==> !success && message == "Service not found"
    ensures serviceId in old(db.services) && DateRejected(date) ==>
      !success && message == "Invalid service date (use YYYY-MM-DD format)"
    ensures serviceId in old(db.services) && !DateRejected(date) && CostRejected(labor) ==>
      !success && message == "Invalid labor cost"
    ensures serviceId in old(db.services) && !DateRejected(date) && !CostRejected(labor) && CostRejected(parts) ==>
      !success && message == "Invalid parts cost"
    ensures (serviceId in old(db.services) && !DateRejected(date) && !CostRejected(labor) && !CostRejected(parts)
             && !Given(date) && !Filled(description) && labor.None? && parts.None?) ==>
      !success && message == "No fields to update"
    ensures success <==>
      serviceId != 0 && serviceId in old(db.services)
      && !DateRejected(date) && !CostRejected(labor) && !CostRejected(parts)
      && (Given(date) || Filled(description) || labor.Some? || parts.Some?)
    ensures !success ==> unchanged(db)
    ensures success ==>
      && message == "Service updated successfully"
      && db.services == old(db.services)[serviceId := UpdatedService(old(db.services)[serviceId], date, description, labor, parts)]
      && db.customers == old(db.customers) && db.vehicles == old(db.vehicles)
  {
    if serviceId == 0 {
      return false, "Service ID is required";
    }
    if serviceId !in db.services {
      return false, "Service not found";
    }
    var updates, row, error := CollectUpdates(db.services[serviceId], date, description, labor, parts);
    if error.Some? {
      return false, error.value;
    }
    if |updates| == 0 {
      return false, "No fields to update";
    }
    UpdateKeepsRowRules(db.services[serviceId], date, description, labor, parts);
    WriteService(db, serviceId, row);
    success, message := true, "Service updated successfully";
  }

  /** The UPDATE statement of `update_service`. */
  method WriteService(db: Store, serviceId: int, row: Service)
    requires db.Valid() && WellFormed(db.Snapshot())
    requires serviceId in db.services && row.vehicleId == db.services[serviceId].vehicleId && ServiceRowOk(row)
    modifies db
    ensures db.Valid() && WellFormed(db.Snapshot())
    ensures db.services == old(db.services)[serviceId := row]
    ensures db.customers == old(db.customers) && db.vehicles == old(db.vehicles)
    ensures db.nextCustomerId == old(db.nextCustomerId) && db.nextVehicleId == old(db.nextVehicleId)
    ensures db.nextServiceId == old(db.nextServiceId)
  {
    ghost var before := db.Snapshot();
    PutServiceKeepsRules(before, serviceId, row);
    db.UpdateService(serviceId, row);
    assert db.Snapshot() == before.(services := before.services[serviceId := row]);
  }

  // ----------------------------------------------------------- delete

  /** `delete_service`: exactly that row goes; nothing references a service. */
  method DeleteService(db: Store, serviceId: int) returns (success: bool, message: string)
    requires db.Valid() && WellFormed(db.Snapshot())
    modifies db
    ensures db.Valid() && WellFormed(db.Snapshot())
    ensures serviceId == 0 ==> !success && message == "Service ID is required"
    ensures serviceId != 0 && serviceId !in old(db.services) ==> !success && message == "Service not found"
    ensures success <==> serviceId != 0 && serviceId in old(db.services)
    ensures !success ==> unchanged(db)
    ensures success ==>
      && db.services == old(db.services) - {serviceId}
      && db.customers == old(db.customers) && db.vehicles == old(db.vehicles)
      && message == "Service deleted successfully"
  {
    if serviceId == 0 {
      return false, "Service ID is required";
    }
    if serviceId !in db.services {
      return false, "Service not found";
    }
    db.DeleteService(serviceId);
    success, message := true, "Service deleted successfully";
  }

  // ----------------------------------------------------------- search

  /** The outcome of a query: `(True, "Found n service(s)", rows)`. */
  datatype Found = Found(success: bool, message: string, rows: seq<ServiceRecord>)

  /**
   * `search_services(vehicle_id, service_id)`: a service id takes precedence
   * over a vehicle id; with neither, every service. Joined rows come out
   * newest service date first.
   */
  function SearchServices(t: Tables, vehicleId: int, serviceId: int): (r: Found)
    ensures r.success && r.message == "Found " + NatToString(|r.rows|) + " service(s)"
    ensures forall i | 0 <= i < |r.rows| ::
      Joinable(t, r.rows[i].serviceId) && r.rows[i] == Record(t, r.rows[i].serviceId)
    ensures forall sid :: sid in ServiceIds(r.rows) <==>
      Joinable(t, sid)
      && (if serviceId != 0 then sid == serviceId
          else vehicleId == 0 || t.services[sid].vehicleId == vehicleId)
    ensures forall i, j | 0 <= i < j < |r.rows| ::
      DateKey(r.rows[j].service.serviceDate) <= DateKey(r.rows[i].service.serviceDate)
  {
    var rows :=
      if serviceId != 0 then
        (if Joinable(t, serviceId) then
           assert ServiceIds([Record(t, serviceId)]) == [serviceId];
           [Record(t, serviceId)]
         else [])
      else if vehicleId != 0 then
        Ordered(t, (set sid | sid in t.services && Joinable(t, sid) && t.services[sid].vehicleId == vehicleId),
                NewestKey)
      else Ordered(t, (set sid | sid in t.services && Joinable(t, sid)), NewestKey);
    NewestFirstOrder(rows);
    Found(true, "Found " + NatToString(|rows|) + " service(s)", rows)
  }

  /** Under the foreign keys every service joins, so the unfiltered search lists them all. */
  lemma SearchAllListsEveryService(t: Tables)
    requires SchemaHolds(t)
    ensures forall sid :: sid in ServiceIds(SearchServices(t, 0, 0).rows) <==> sid in t.services
    ensures |SearchServices(t, 0, 0).rows| == |t.services|
  {
    var ks := set sid | sid in t.services && Joinable(t, sid);
    assert ks == t.services.Keys;
  }

  // -------------------------------------------------------- reminders

  /** `(next_service - today).days`. */
  function DaysLeft(today: Date, next: Date): int
    requires IsCalendarDate(today) && IsCalendarDate(next)
  {
    Ordinal(next) - Ordinal(today)
  }

  /** `today + timedelta(days=REMINDER_DAYS)`. */
  function ReminderHorizon(today: Date): (h: Date)
    requires IsValidDate(today) && Ordinal(today) + ReminderDays <= Ordinal(LastDate)
    ensures IsValidDate(h) && Ordinal(h) == Ordinal(today) + ReminderDays
  {
    AddDaysChecked(today, ReminderDays).value
  }

  /** `next_service_date IS NOT NULL AND next_service_date <= horizon AND next_service_date >= today`. */
  predicate DueBetween(s: Service, today: Date, horizon: Date)
  {
    s.nextServiceDate.Some?
    && DateKey(today) <= DateKey(s.nextServiceDate.value) <= DateKey(horizon)
  }

  /**
   * `get_service_reminders`, with `today` passed in: the joined services whose
   * next service date lies from today to REMINDER_DAYS ahead, soonest first.
   * Today must be early enough that the horizon is still a date; otherwise
   * the source raises OverflowError.
   */
  function ServiceReminders(t: Tables, today: Date): (r: Found)
    requires IsValidDate(today) && Ordinal(today) + ReminderDays <= Ordinal(LastDate)
    ensures r.success && r.message == "Found " + NatToString(|r.rows|) + " reminder(s)"
    ensures forall i | 0 <= i < |r.rows| ::
      Joinable(t, r.rows[i].serviceId) && r.rows[i] == Record(t, r.rows[i].serviceId)
    ensures forall sid :: sid in ServiceIds(r.rows) <==>
      Joinable(t, sid) && DueBetween(t.services[sid], today, ReminderHorizon(today))
    ensures SortedByKey(r.rows, NextDateKey)
  {
    var horizon := ReminderHorizon(today);
    var due := set sid | sid in t.services && Joinable(t, sid) && DueBetween(t.services[sid], today, horizon);
    var rows := Ordered(t, due, NextDateKey);
    Found(true, "Found " + NatToString(|rows|) + " reminder(s)", rows)
  }

  /**
   * On well-formed tables a service is among the reminders exactly when it
   * has a next service date whose days-left count is between 0 and
   * REMINDER_DAYS.
   */
  lemma RemindersByDaysLeft(t: Tables, today: Date)
    requires WellFormed(t)
    requires IsValidDate(today) && Ordinal(today) + ReminderDays <= Ordinal(LastDate)
    ensures forall sid :: sid in ServiceIds(ServiceReminders(t, today).rows) <==>
      Joinable(t, sid) && t.services[sid].nextServiceDate.Some?
      && IsValidDate(t.services[sid].nextServiceDate.value)
      && 0 <= DaysLeft(today, t.services[sid].nextServiceDate.value) <= ReminderDays
  {
    var horizon := ReminderHorizon(today);
    forall sid | Joinable(t, sid) && t.services[sid].nextServiceDate.Some?
      ensures IsValidDate(t.services[sid].nextServiceDate.value)
      ensures DueBetween(t.services[sid], today, horizon) <==>
              0 <= DaysLeft(today, t.services[sid].nextServiceDate.value) <= ReminderDays
    {
      var s := t.services[sid];
      assert ServiceRowOk(s);
      var next := s.nextServiceDate.value;
      DateKeyOrder(today, next);
      DateKeyOrder(next, horizon);
      OrdinalOrder(today, next);
      OrdinalOrder(next, horizon);
    }
  }
}
