/**
 * The three tables of the schema (customers → vehicles → services) held in
 * memory in place of the SQL engine: rows keyed by their primary key, the
 * engine's constraints (foreign keys with ON DELETE CASCADE, the UNIQUE
 * licence plate) and the row rules the managers keep.
 */
module Database {
  import opened Wrappers
  import opened Calendar
  import opened DomainRules

  datatype Customer = Customer(name: string, phone: string, email: Option<string>, address: Option<string>)

  datatype Vehicle = Vehicle(customerId: int, make: string, model: string, year: int,
                             licensePlate: string, vin: Option<string>)

  datatype Service = Service(vehicleId: int, serviceDate: Date, description: string,
                             laborCost: real, partsCost: real, totalCost: real,
                             nextServiceDate: Option<Date>)

  /** A snapshot of the database: each table maps primary keys to rows. */
  datatype Tables = Tables(customers: map<int, Customer>, vehicles: map<int, Vehicle>,
                           services: map<int, Service>)

  // ------------------------------------------------------------ the schema

  /** The two `FOREIGN KEY ... REFERENCES` clauses hold. */
  predicate ReferencesResolve(t: Tables)
  {
    (forall vid | vid in t.vehicles :: t.vehicles[vid].customerId in t.customers)
    && (forall sid | sid in t.services :: t.services[sid].vehicleId in t.vehicles)
  }

  /** `license_plate ... UNIQUE`. */
  predicate PlatesUnique(t: Tables)
  {
    forall a, b | a in t.vehicles && b in t.vehicles && a != b ::
      t.vehicles[a].licensePlate != t.vehicles[b].licensePlate
  }

  predicate SchemaHolds(t: Tables)
  {
    ReferencesResolve(t) && PlatesUnique(t)
  }

  /** Some vehicle other than `vid` carries `plate`. */
  predicate PlateHeldByOther(t: Tables, plate: string, vid: int)
  {
    exists other | other in t.vehicles && other != vid :: t.vehicles[other].licensePlate == plate
  }

  /** Some vehicle carries exactly this plate. */
  predicate PlateInUse(t: Tables, plate: string)
  {
    exists vid | vid in t.vehicles :: t.vehicles[vid].licensePlate == plate
  }

  /** Some customer has exactly this phone number. */
  predicate PhoneInUse(t: Tables, phone: string)
  {
    exists cid | cid in t.customers :: t.customers[cid].phone == phone
  }

  /** The service is recorded on a vehicle that customer `cid` owns. */
  predicate ServiceOfCustomer(t: Tables, sid: int, cid: int)
    requires sid in t.services
  {
    var vid := t.services[sid].vehicleId;
    vid in t.vehicles && t.vehicles[vid].customerId == cid
  }

  // -------------------------------------------------- the managers' row rules

  /** What add_customer and update_customer let into a customer row. */
  predicate CustomerRowOk(c: Customer)
  {
    HasText(c.name) && HasText(c.phone) && ValidatePhone(c.phone)
    && (c.email.Some? ==> ValidateEmail(c.email.value))
  }

  /** What add_vehicle and update_vehicle let into a vehicle row. */
  predicate VehicleRowOk(v: Vehicle)
  {
    HasText(v.make) && HasText(v.model) && 1900 <= v.year <= 2030
    && ValidateLicensePlate(v.licensePlate)
  }

  /** What add_service and update_service let into a service row: real costs, derived total and next date. */
  predicate ServiceRowOk(s: Service)
  {
    IsValidDate(s.serviceDate) && HasText(s.description)
    && s.laborCost >= 0.0 && s.partsCost >= 0.0
    && s.totalCost == TotalWithTax(s.laborCost, s.partsCost)
    && s.nextServiceDate == NextServiceDate(s.serviceDate)
  }

  predicate WellFormed(t: Tables)
  {
    (forall cid | cid in t.customers :: CustomerRowOk(t.customers[cid]))
    && (forall vid | vid in t.vehicles :: VehicleRowOk(t.vehicles[vid]))
    && (forall sid | sid in t.services :: ServiceRowOk(t.services[sid]))
  }

  // ------------------------------------------------------- cascading deletes

  /** `DELETE FROM customers WHERE customer_id = cid` with both cascades applied. */
  function DeleteCustomerCascade(t: Tables, cid: int): Tables
  {
    Tables(t.customers - {cid},
           map vid | vid in t.vehicles && t.vehicles[vid].customerId != cid :: t.vehicles[vid],
           map sid | sid in t.services && !ServiceOfCustomer(t, sid, cid) :: t.services[sid])
  }

  /** `DELETE FROM vehicles WHERE vehicle_id = vid` with the cascade to services. */
  function DeleteVehicleCascade(t: Tables, vid: int): Tables
  {
    Tables(t.customers,
           t.vehicles - {vid},
           map sid | sid in t.services && t.services[sid].vehicleId != vid :: t.services[sid])
  }

  /**
   * Deleting a customer removes that customer, exactly the vehicles it owns and
   * exactly the services on those vehicles; every other row stays as it was,
   * and the constraints and row rules still hold.
   */
  lemma DeleteCustomerRemovesDependents(t: Tables, cid: int)
    requires SchemaHolds(t)
    ensures var r := DeleteCustomerCascade(t, cid);
      && r.customers.Keys == t.customers.Keys - {cid}
      && (forall vid :: vid in r.vehicles <==> vid in t.vehicles && t.vehicles[vid].customerId != cid)
      && (forall sid :: sid in r.services <==> sid in t.services && !ServiceOfCustomer(t, sid, cid))
      && (forall c | c in r.customers :: r.customers[c] == t.customers[c])
      && (forall v | v in r.vehicles :: r.vehicles[v] == t.vehicles[v])
      && (forall s | s in r.services :: r.services[s] == t.services[s])
      && SchemaHolds(r)
      && (WellFormed(t) ==> WellFormed(r))
  {
    var r := DeleteCustomerCascade(t, cid);
    forall sid | sid in r.services ensures r.services[sid].vehicleId in r.vehicles {
      assert t.services[sid].vehicleId in t.vehicles;
    }
  }

  /**
   * Deleting a vehicle removes it and exactly its services; customers and the
   * other vehicles and services are untouched, and the constraints still hold.
   */
  lemma DeleteVehicleRemovesServices(t: Tables, vid: int)
    requires SchemaHolds(t)
    ensures var r := DeleteVehicleCascade(t, vid);
      && r.customers == t.customers
      && r.vehicles.Keys == t.vehicles.Keys - {vid}
      && (forall sid :: sid in r.services <==> sid in t.services && t.services[sid].vehicleId != vid)
      && (forall v | v in r.vehicles :: r.vehicles[v] == t.vehicles[v])
      && (forall s | s in r.services :: r.services[s] == t.services[s])
      && SchemaHolds(r)
      && (WellFormed(t) ==> WellFormed(r))
  {
  }

  /** After a customer is deleted no remaining service can be traced back to it. */
  lemma NoOrphansAfterCustomerDelete(t: Tables, cid: int)
    requires SchemaHolds(t)
    ensures var r := DeleteCustomerCascade(t, cid);
      forall sid | sid in r.services :: !ServiceOfCustomer(r, sid, cid) && r.services[sid].vehicleId in r.vehicles
  {
    DeleteCustomerRemovesDependents(t, cid);
  }

  /** Writing a row that keeps the row rules, under any key, keeps the tables well formed. */
  lemma PutCustomerKeepsRules(t: Tables, id: int, c: Customer)
    requires WellFormed(t) && CustomerRowOk(c)
    ensures WellFormed(t.(customers := t.customers[id := c]))
  {
  }

  lemma PutVehicleKeepsRules(t: Tables, id: int, v: Vehicle)
    requires WellFormed(t) && VehicleRowOk(v)
    ensures WellFormed(t.(vehicles := t.vehicles[id := v]))
  {
  }

  lemma PutServiceKeepsRules(t: Tables, id: int, s: Service)
    requires WellFormed(t) && ServiceRowOk(s)
    ensures WellFormed(t.(services := t.services[id := s]))
  {
  }

  // ------------------------------------------------------------- the store

  /**
   * The database engine: the three tables and the next value of each
   * auto-increment key. Its methods are the SQL statements the managers issue.
   */
  class Store {
    var customers: map<int, Customer>
    var vehicles: map<int, Vehicle>
    var services: map<int, Service>
    var nextCustomerId: int
    var nextVehicleId: int
    var nextServiceId: int

    function Snapshot(): Tables
      reads this
    {
      Tables(customers, vehicles, services)
    }

    /** The schema's constraints hold and every key was issued by its counter. */
    predicate Valid()
      reads this
    {
      SchemaHolds(Snapshot())
      && 1 <= nextCustomerId && 1 <= nextVehicleId && 1 <= nextServiceId
      && (forall id | id in customers :: 1 <= id < nextCustomerId)
      && (forall id | id in vehicles :: 1 <= id < nextVehicleId)
      && (forall id | id in services :: 1 <= id < nextServiceId)
    }

    /** `init_database`: three empty tables. */
    constructor ()
      ensures Valid() && WellFormed(Snapshot())
      ensures customers == map[] && vehicles == map[] && services == map[]
      ensures nextCustomerId == 1 && nextVehicleId == 1 && nextServiceId == 1
    {
      customers, vehicles, services := map[], map[], map[];
      nextCustomerId, nextVehicleId, nextServiceId := 1, 1, 1;
    }

    /** `INSERT INTO customers`: the row gets the next key. */
    method InsertCustomer(c: Customer) returns (id: int)
      requires Valid()
      modifies this
      ensures Valid()
      ensures id == old(nextCustomerId) && id >= 1 && id !in old(customers)
      ensures customers == old(customers)[id := c] && nextCustomerId == id + 1
      ensures vehicles == old(vehicles) && services == old(services)
      ensures nextVehicleId == old(nextVehicleId) && nextServiceId == old(nextServiceId)
    {
      id := nextCustomerId;
      customers := customers[id := c];
      nextCustomerId := nextCustomerId + 1;
    }

    /** `UPDATE customers SET ... WHERE customer_id = id`. */
    method UpdateCustomer(id: int, c: Customer)
      requires Valid() && id in customers
      modifies this
      ensures Valid()
      ensures customers == old(customers)[id := c]
      ensures vehicles == old(vehicles) && services == old(services)
      ensures nextCustomerId == old(nextCustomerId) && nextVehicleId == old(nextVehicleId)
      ensures nextServiceId == old(nextServiceId)
    {
      customers := customers[id := c];
    }

    /** `DELETE FROM customers WHERE customer_id = id`, cascading. */
    method DeleteCustomer(id: int)
      requires Valid()
      modifies this
      ensures Valid()
      ensures Snapshot() == DeleteCustomerCascade(old(Snapshot()), id)
      ensures nextCustomerId == old(nextCustomerId) && nextVehicleId == old(nextVehicleId)
      ensures nextServiceId == old(nextServiceId)
    {
      DeleteCustomerRemovesDependents(Snapshot(), id);
      var t := DeleteCustomerCascade(Snapshot(), id);
      customers, vehicles, services := t.customers, t.vehicles, t.services;
    }

    /** `INSERT INTO vehicles`; the caller has checked both constraints. */
    method InsertVehicle(v: Vehicle) returns (id: int)
      requires Valid() && v.customerId in customers
      requires !PlateInUse(Snapshot(), v.licensePlate)
      modifies this
      ensures Valid()
      ensures id == old(nextVehicleId) && id >= 1 && id !in old(vehicles)
      ensures vehicles == old(vehicles)[id := v] && nextVehicleId == id + 1
      ensures customers == old(customers) && services == old(services)
      ensures nextCustomerId == old(nextCustomerId) && nextServiceId == old(nextServiceId)
    {
      id := nextVehicleId;
      vehicles := vehicles[id := v];
      nextVehicleId := nextVehicleId + 1;
    }

    /**
     * `UPDATE vehicles SET ... WHERE vehicle_id = id`: the engine refuses the
     * statement, and nothing changes, when another vehicle has the plate.
     */
    method UpdateVehicle(id: int, v: Vehicle) returns (ok: bool)
      requires Valid() && id in vehicles && v.customerId == vehicles[id].customerId
      modifies this
      ensures Valid()
      ensures ok <==> !PlateHeldByOther(old(Snapshot()), v.licensePlate, id)
      ensures vehicles == if ok then old(vehicles)[id := v] else old(vehicles)
      ensures customers == old(customers) && services == old(services)
      ensures nextCustomerId == old(nextCustomerId) && nextVehicleId == old(nextVehicleId)
      ensures nextServiceId == old(nextServiceId)
    {
      ok := !exists other | other in vehicles && other != id :: vehicles[other].licensePlate == v.licensePlate;
      if ok {
        vehicles := vehicles[id := v];
      }
    }

    /** `DELETE FROM vehicles WHERE vehicle_id = id`, cascading. */
    method DeleteVehicle(id: int)
      requires Valid()
      modifies this
      ensures Valid()
      ensures Snapshot() == DeleteVehicleCascade(old(Snapshot()), id)
      ensures nextCustomerId == old(nextCustomerId) && nextVehicleId == old(nextVehicleId)
      ensures nextServiceId == old(nextServiceId)
    {
      DeleteVehicleRemovesServices(Snapshot(), id);
      var t := DeleteVehicleCascade(Snapshot(), id);
      customers, vehicles, services := t.customers, t.vehicles, t.services;
    }

    /** `INSERT INTO services`; the caller has checked the vehicle exists. */
    method InsertService(s: Service) returns (id: int)
      requires Valid() && s.vehicleId in vehicles
      modifies this
      ensures Valid()
      ensures id == old(nextServiceId) && id >= 1 && id !in old(services)
      ensures services == old(services)[id := s] && nextServiceId == id + 1
      ensures customers == old(customers) && vehicles == old(vehicles)
      ensures nextCustomerId == old(nextCustomerId) && nextVehicleId == old(nextVehicleId)
    {
      id := nextServiceId;
      services := services[id := s];
      nextServiceId := nextServiceId + 1;
    }

    /** `UPDATE services SET ... WHERE service_id = id`. */
    method UpdateService(id: int, s: Service)
      requires Valid() && id in services && s.vehicleId == services[id].vehicleId
      modifies this
      ensures Valid()
      ensures services == old(services)[id := s]
      ensures customers == old(customers) && vehicles == old(vehicles)
      ensures nextCustomerId == old(nextCustomerId) && nextVehicleId == old(nextVehicleId)
      ensures nextServiceId == old(nextServiceId)
    {
      services := services[id := s];
    }

    /** `DELETE FROM services WHERE service_id = id`. */
    method DeleteService(id: int)
      requires Valid()
      modifies this
      ensures Valid()
      ensures services == old(services) - {id}
      ensures customers == old(customers) && vehicles == old(vehicles)
      ensures nextCustomerId == old(nextCustomerId) && nextVehicleId == old(nextVehicleId)
      ensures nextServiceId == old(nextServiceId)
    {
      services := services - {id};
    }
  }
}
