/**
 * vehicle_manager.py: adding, updating, deleting and searching vehicles. The
 * licence plate is unique in the schema; `add_vehicle` checks it first, while
 * `update_vehicle` leaves it to the engine.
 */
module VehicleManager {
  import opened Wrappers
  import opened Text
  import opened Sorting
  import opened DomainRules
  import opened Database

  /** `add_vehicle`. */
  method AddVehicle(db: Store, customerId: int, make: string, model: string, year: string,
                    licensePlate: string, vin: Option<string>)
    returns (success: bool, message: string)
    requires db.Valid() && WellFormed(db.Snapshot())
    modifies db
    ensures db.Valid() && WellFormed(db.Snapshot())
    ensures customerId == 0 ==> !success && message == "Customer ID is required"
    ensures customerId != 0 && !HasText(make) ==> !success && message == "Make cannot be empty"
    ensures customerId != 0 && HasText(make) && !HasText(model) ==>
      !success && message == "Model cannot be empty"
    ensures customerId != 0 && HasText(make) && HasText(model) && !ValidateYear(year) ==>
      !success && message == "Invalid year (must be between 1900 and 2030)"
    ensures (customerId != 0 && HasText(make) && HasText(model) && ValidateYear(year)
             && !ValidateLicensePlate(licensePlate)) ==>
      !success && message == "License plate cannot be empty"
    ensures (customerId != 0 && HasText(make) && HasText(model) && ValidateYear(year)
             && ValidateLicensePlate(licensePlate) && customerId !in old(db.customers)) ==>
      !success && message == "Customer not found"
    ensures (customerId != 0 && HasText(make) && HasText(model) && ValidateYear(year)
             && ValidateLicensePlate(licensePlate) && customerId in old(db.customers)
             && PlateInUse(old(db.Snapshot()), licensePlate)) ==>
      !success && message == "Vehicle with this license plate already exists"
    ensures success <==>
      customerId != 0 && HasText(make) && HasText(model) && ValidateYear(year)
      && ValidateLicensePlate(licensePlate) && customerId in old(db.customers)
      && !PlateInUse(old(db.Snapshot()), licensePlate)
    ensures !success ==> unchanged(db)
    ensures success ==>
      var id := old(db.nextVehicleId);
      && id !in old(db.vehicles)
      && db.vehicles == old(db.vehicles)[id := Vehicle(customerId, make, model, ParseInt(year).value, licensePlate, vin)]
      && db.customers == old(db.customers) && db.services == old(db.services)
      && message == "Vehicle added successfully (ID: " + NatToString(id) + ")"
  {
    if customerId == 0 {
      return false, "Customer ID is required";
    }
    if !HasText(make) {
      return false, "Make cannot be empty";
    }
    if !HasText(model) {
      return false, "Model cannot be empty";
    }
    if !ValidateYear(year) {
      return false, "Invalid year (must be between 1900 and 2030)";
    }
    if !ValidateLicensePlate(licensePlate) {
      return false, "License plate cannot be empty";
    }
    if customerId !in db.customers {
      return false, "Customer not found";
    }
    var taken := exists vid | vid in db.vehicles :: db.vehicles[vid].licensePlate == licensePlate;
    if taken {
      return false, "Vehicle with this license plate already exists";
    }
    var row := Vehicle(customerId, make, model, ParseInt(year).value, licensePlate, vin);
    PutVehicleKeepsRules(db.Snapshot(), db.nextVehicleId, row);
    var id := db.InsertVehicle(row);
    success, message := true, "Vehicle added successfully (ID: " + NatToString(id) + ")";
  }

  /** The columns an `UPDATE vehicles SET ...` statement can name. */
  datatype Column = MakeColumn | ModelColumn | YearColumn | PlateColumn | VinColumn

  /** `year` is given and `validate_year` refuses it. */
  predicate YearRejected(year: Option<string>)
  {
    Given(year) && !ValidateYear(year.value)
  }

  /** `license_plate` is given and `validate_license_plate` refuses it. */
  predicate PlateRejected(plate: Option<string>)
  {
    Given(plate) && !ValidateLicensePlate(plate.value)
  }

  /** The vehicle row `update_vehicle` writes once its checks pass. */
  function UpdatedVehicle(was: Vehicle, make: Option<string>, model: Option<string>, year: Option<string>,
                          plate: Option<string>, vin: Option<string>): Vehicle
    requires !YearRejected(year)
  {
    Vehicle(was.customerId,
            if Filled(make) then make.value else was.make,
            if Filled(model) then model.value else was.model,
            if Given(year) then ParseInt(year.value).value else was.year,
            if Given(plate) then plate.value else was.licensePlate,
            if vin.Some? then vin else was.vin)
  }

  /** The make and model steps of `update_vehicle`: a blank value is skipped. */
  method TextUpdates(was: Vehicle, make: Option<string>, model: Option<string>)
    returns (updates: seq<Column>, row: Vehicle)
    ensures |updates| == (if Filled(make) then 1 else 0) + (if Filled(model) then 1 else 0)
    ensures row == was.(make := if Filled(make) then make.value else was.make,
                        model := if Filled(model) then model.value else was.model)
  {
    row := was;
    updates := [];
    if make.Some? && HasText(make.value) {
      updates := updates + [MakeColumn];
      row := row.(make := make.value);
    }
    if model.Some? && HasText(model.value) {
      updates := updates + [ModelColumn];
      row := row.(model := model.value);
    }
  }

  /**
   * The middle of `update_vehicle`: a blank make or model is skipped, a given
   * year or plate must pass its validator, vin is written whenever given.
   */
  method CollectUpdates(was: Vehicle, make: Option<string>, model: Option<string>, year: Option<string>,
                        plate: Option<string>, vin: Option<string>)
    returns (updates: seq<Column>, row: Vehicle, error: Option<string>)
    ensures YearRejected(year) ==> error == Some("Invalid year (must be between 1900 and 2030)")
    ensures !YearRejected(year) && PlateRejected(plate) ==> error == Some("License plate cannot be empty")
    ensures error.None? <==> !YearRejected(year) && !PlateRejected(plate)
    ensures error.None? ==>
      && |updates| == (if Filled(make) then 1 else 0) + (if Filled(model) then 1 else 0)
                      + (if Given(year) then 1 else 0) + (if Given(plate) then 1 else 0) + (if vin.Some? then 1 else 0)
    ensures error.None? ==> row == UpdatedVehicle(was, make, model, year, plate, vin)
  {
    updates, row := TextUpdates(was, make, model);
    if year.Some? && year.value != [] {
      if !ValidateYear(year.value) {
        return updates, row, Some("Invalid year (must be between 1900 and 2030)");
      }
      updates := updates + [YearColumn];
      row := row.(year := ParseInt(year.value).value);
    }
    assert !YearRejected(year);
    assert |updates| == (if Filled(make) then 1 else 0) + (if Filled(model) then 1 else 0) + (if Given(year) then 1 else 0);
    assert row == was.(make := if Filled(make) then make.value else was.make,
                       model := if Filled(model) then model.value else was.model,
                       year := if Given(year) then ParseInt(year.value).value else was.year);
    if plate.Some? && plate.value != [] {
      if !ValidateLicensePlate(plate.value) {
        return updates, row, Some("License plate cannot be empty");
      }
      updates := updates + [PlateColumn];
      row := row.(licensePlate := plate.value);
    }
    assert !PlateRejected(plate);
    assert |updates| == (if Filled(make) then 1 else 0) + (if Filled(model) then 1 else 0)
                        + (if Given(year) then 1 else 0) + (if Given(plate) then 1 else 0);
    if vin.Some? {
      updates := updates + [VinColumn];
      row := row.(vin := vin);
    }
    error := None;
  }

  /** Whatever passes the checks of `update_vehicle` keeps a valid row valid. */
  lemma UpdateKeepsRowRules(was: Vehicle, make: Option<string>, model: Option<string>, year: Option<string>,
                            plate: Option<string>, vin: Option<string>)
    requires VehicleRowOk(was)
    requires !YearRejected(year) && !PlateRejected(plate)
    ensures VehicleRowOk(UpdatedVehicle(was, make, model, year, plate, vin))
  {
    var r := UpdatedVehicle(was, make, model, year, plate, vin);
    assert HasText(r.make) by {
      if Filled(make) { assert r.make == make.value; } else { assert r.make == was.make; }
    }
    assert HasText(r.model) by {
      if Filled(model) { assert r.model == model.value; } else { assert r.model == was.model; }
    }
    assert 1900 <= r.year <= 2030 by {
      if Given(year) { assert r.year == ParseInt(year.value).value; } else { assert r.year == was.year; }
    }
    assert ValidateLicensePlate(r.licensePlate) by {
      if Given(plate) { assert r.licensePlate == plate.value; } else { assert r.licensePlate == was.licensePlate; }
    }
  }

  /**
   * `update_vehicle`. A plate already carried by another vehicle is not
   * checked here: the engine's UNIQUE constraint refuses the statement and the
   * operation reports "Failed to update vehicle".
   */
  method UpdateVehicle(db: Store, vehicleId: int, make: Option<string>, model: Option<string>,
                       year: Option<string>, plate: Option<string>, vin: Option<string>)
    returns (success: bool, message: string)
    requires db.Valid() && WellFormed(db.Snapshot())
    modifies db
    ensures db.Valid() && WellFormed(db.Snapshot())
    ensures vehicleId == 0 ==> !success && message == "Vehicle ID is required"
    ensures vehicleId != 0 && vehicleId !in old(db.vehicles) ==> !success && message == "Vehicle not found"
    ensures vehicleId in old(db.vehicles) && YearRejected(year) ==>
      !success && message == "Invalid year (must be between 1900 and 2030)"
    ensures vehicleId in old(db.vehicles) && !YearRejected(year) && PlateRejected(plate) ==>
      !success && message == "License plate cannot be empty"
    ensures (vehicleId in old(db.vehicles) && !YearRejected(year) && !PlateRejected(plate)
             && !Filled(make) && !Filled(model) && !Given(year) && !Given(plate) && vin.None?) ==>
      !success && message == "No fields to update"
    ensures (vehicleId != 0 && vehicleId in old(db.vehicles) && !YearRejected(year) && !PlateRejected(plate)
             && (Filled(make) || Filled(model) || Given(year) || Given(plate) || vin.Some?)) ==>
      var row := UpdatedVehicle(old(db.vehicles)[vehicleId], make, model, year, plate, vin);
      if PlateHeldByOther(old(db.Snapshot()), row.licensePlate, vehicleId) then
        !success && message == "Failed to update vehicle"
      else
        success && message == "Vehicle updated successfully"
        && db.vehicles == old(db.vehicles)[vehicleId := row]
        && db.customers == old(db.customers) && db.services == old(db.services)
    ensures !success ==> db.Snapshot() == old(db.Snapshot())
    ensures db.nextCustomerId == old(db.nextCustomerId) && db.nextVehicleId == old(db.nextVehicleId)
    ensures db.nextServiceId == old(db.nextServiceId)
  {
    if vehicleId == 0 {
      return false, "Vehicle ID is required";
    }
    if vehicleId !in db.vehicles {
      return false, "Vehicle not found";
    }
    var was := db.vehicles[vehicleId];
    var updates, row, error := CollectUpdates(was, make, model, year, plate, vin);
    if error.Some? {
      return false, error.value;
    }
    assert !YearRejected(year) && !PlateRejected(plate);
    if |updates| == 0 {
      return false, "No fields to update";
    }
    assert row == UpdatedVehicle(was, make, model, year, plate, vin);
    assert VehicleRowOk(was);
    UpdateKeepsRowRules(was, make, model, year, plate, vin);
    success, message := WriteVehicle(db, vehicleId, row);
  }

  /** The UPDATE statement of `update_vehicle` and the message for each outcome. */
  method WriteVehicle(db: Store, vehicleId: int, row: Vehicle) returns (success: bool, message: string)
    requires db.Valid() && WellFormed(db.Snapshot())
    requires vehicleId in db.vehicles && row.customerId == db.vehicles[vehicleId].customerId && VehicleRowOk(row)
    modifies db
    ensures db.Valid() && WellFormed(db.Snapshot())
    ensures success <==> !PlateHeldByOther(old(db.Snapshot()), row.licensePlate, vehicleId)
    ensures success ==>
      && message == "Vehicle updated successfully"
      && db.vehicles == old(db.vehicles)[vehicleId := row]
      && db.customers == old(db.customers) && db.services == old(db.services)
    ensures !success ==> message == "Failed to update vehicle" && db.Snapshot() == old(db.Snapshot())
    ensures db.nextCustomerId == old(db.nextCustomerId) && db.nextVehicleId == old(db.nextVehicleId)
    ensures db.nextServiceId == old(db.nextServiceId)
  {
    ghost var before := db.Snapshot();
    PutVehicleKeepsRules(before, vehicleId, row);
    var ok := db.UpdateVehicle(vehicleId, row);
    if !ok {
      return false, "Failed to update vehicle";
    }
    assert db.Snapshot() == before.(vehicles := before.vehicles[vehicleId := row]);
    success, message := true, "Vehicle updated successfully";
  }

  /** `delete_vehicle`: the vehicle goes, and the foreign key cascades to its services. */
  method DeleteVehicle(db: Store, vehicleId: int) returns (success: bool, message: string)
    requires db.Valid() && WellFormed(db.Snapshot())
    modifies db
    ensures db.Valid() && WellFormed(db.Snapshot())
    ensures vehicleId == 0 ==> !success && message == "Vehicle ID is required"
    ensures vehicleId != 0 && vehicleId !in old(db.vehicles) ==> !success && message == "Vehicle not found"
    ensures success <==> vehicleId != 0 && vehicleId in old(db.vehicles)
    ensures !success ==> unchanged(db)
    ensures success ==>
      db.Snapshot() == DeleteVehicleCascade(old(db.Snapshot()), vehicleId)
      && message == "Vehicle deleted successfully (all associated services removed)"
  {
    if vehicleId == 0 {
      return false, "Vehicle ID is required";
    }
    if vehicleId !in db.vehicles {
      return false, "Vehicle not found";
    }
    DeleteVehicleRemovesServices(db.Snapshot(), vehicleId);
    db.DeleteVehicle(vehicleId);
    success, message := true, "Vehicle deleted successfully (all associated services removed)";
  }

  // ------------------------------------------------------------------ search

  /** `v.*, c.name`: a vehicle joined with its owner's name. */
  datatype VehicleRow = VehicleRow(vehicleId: int, vehicle: Vehicle, customerName: string)

  /** The outcome of a search: `(True, "Found n vehicle(s)", rows)`. */
  datatype Found = Found(success: bool, message: string, rows: seq<VehicleRow>)

  function RowIds(rows: seq<VehicleRow>): (ids: seq<int>)
    ensures |ids| == |rows| && forall i | 0 <= i < |rows| :: ids[i] == rows[i].vehicleId
  {
    seq(|rows|, i requires 0 <= i < |rows| => rows[i].vehicleId)
  }

  /** `make LIKE %term% OR model LIKE %term% OR license_plate LIKE %term%`. */
  predicate VehicleMatches(v: Vehicle, term: string)
  {
    Contains(v.make, term) || Contains(v.model, term) || Contains(v.licensePlate, term)
  }

  /** The inner join with customers keeps a vehicle only when its owner row exists. */
  predicate Joinable(t: Tables, vid: int)
  {
    vid in t.vehicles && t.vehicles[vid].customerId in t.customers
  }

  function RowsFor(t: Tables, ids: seq<int>): (rows: seq<VehicleRow>)
    requires forall i | 0 <= i < |ids| :: Joinable(t, ids[i])
    ensures RowIds(rows) == ids
    ensures forall i | 0 <= i < |rows| ::
      Joinable(t, rows[i].vehicleId) && rows[i].vehicle == t.vehicles[rows[i].vehicleId]
      && rows[i].customerName == t.customers[rows[i].vehicle.customerId].name
  {
    seq(|ids|, i requires 0 <= i < |ids| && Joinable(t, ids[i]) =>
      VehicleRow(ids[i], t.vehicles[ids[i]], t.customers[t.vehicles[ids[i]].customerId].name))
  }

  /**
   * `search_vehicles(search_term, vehicle_id, customer_id)`: a vehicle id takes
   * precedence over a customer id, which takes precedence over a term; with
   * none of them, every vehicle. Rows come out in ascending vehicle id order.
   */
  function SearchVehicles(t: Tables, term: string, vehicleId: int, customerId: int): (r: Found)
    ensures r.success && r.message == "Found " + NatToString(|r.rows|) + " vehicle(s)"
    ensures forall i | 0 <= i < |r.rows| ::
      Joinable(t, r.rows[i].vehicleId) && r.rows[i].vehicle == t.vehicles[r.rows[i].vehicleId]
      && r.rows[i].customerName == t.customers[r.rows[i].vehicle.customerId].name
    ensures StrictlyIncreasing(RowIds(r.rows))
    ensures forall id :: id in RowIds(r.rows) <==>
      Joinable(t, id)
      && (if vehicleId != 0 then id == vehicleId
          else if customerId != 0 then t.vehicles[id].customerId == customerId
          else term == [] || VehicleMatches(t.vehicles[id], term))
  {
    var ids :=
      if vehicleId != 0 then (if Joinable(t, vehicleId) then [vehicleId] else [])
      else if customerId != 0 then
        SortedIds(set id | id in t.vehicles && Joinable(t, id) && t.vehicles[id].customerId == customerId)
      else if term != [] then
        SortedIds(set id | id in t.vehicles && Joinable(t, id) && VehicleMatches(t.vehicles[id], term))
      else SortedIds(set id | id in t.vehicles && Joinable(t, id));
    assert forall i | 0 <= i < |ids| :: Joinable(t, ids[i]) by {
      forall i | 0 <= i < |ids| ensures Joinable(t, ids[i]) {
        assert ids[i] in ids;
      }
    }
    var rows := RowsFor(t, ids);
    Found(true, "Found " + NatToString(|rows|) + " vehicle(s)", rows)
  }

  /** Under the foreign key every vehicle is joinable, so the unfiltered search lists them all. */
  lemma SearchAllListsEveryVehicle(t: Tables)
    requires SchemaHolds(t)
    ensures forall id :: id in RowIds(SearchVehicles(t, [], 0, 0).rows) <==> id in t.vehicles
    ensures |SearchVehicles(t, [], 0, 0).rows| == |t.vehicles|
  {
    var ks := set id | id in t.vehicles && Joinable(t, id);
    assert ks == t.vehicles.Keys;
    assert |SortedIds(ks)| == |t.vehicles.Keys|;
  }
}
