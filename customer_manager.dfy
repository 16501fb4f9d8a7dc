/**
 * customer_manager.py: adding, updating, deleting and searching customers.
 * Each mutating operation returns `(success, message)` and runs its checks in
 * the source's order; the first failing check decides the message and leaves
 * the store as it was.
 */
module CustomerManager {
  import opened Wrappers
  import opened Text
  import opened Sorting
  import opened DomainRules
  import opened Database

  /** `email and not validate_email(email)`: a non-empty address the validator refuses. */
  predicate EmailRejected(email: Option<string>)
  {
    email.Some? && email.value != [] && !ValidateEmail(email.value)
  }

  /** `add_customer`. */
  method AddCustomer(db: Store, name: string, phone: string, email: Option<string>, address: Option<string>)
    returns (success: bool, message: string)
    requires db.Valid() && WellFormed(db.Snapshot())
    modifies db
    ensures db.Valid() && WellFormed(db.Snapshot())
    ensures !HasText(name) ==> !success && message == "Name cannot be empty"
    ensures HasText(name) && !HasText(phone) ==> !success && message == "Phone number cannot be empty"
    ensures HasText(name) && HasText(phone) && !ValidatePhone(phone) ==>
      !success && message == "Invalid phone number format"
    ensures HasText(name) && HasText(phone) && ValidatePhone(phone) && EmailRejected(email) ==>
      !success && message == "Invalid email format"
    ensures (HasText(name) && HasText(phone) && ValidatePhone(phone) && !EmailRejected(email)
             && PhoneInUse(old(db.Snapshot()), phone)) ==>
      !success && message == "Customer with this phone number already exists"
    ensures success <==>
      HasText(name) && HasText(phone) && ValidatePhone(phone) && !EmailRejected(email)
      && !PhoneInUse(old(db.Snapshot()), phone)
    ensures !success ==> unchanged(db)
    ensures success ==>
      var id := old(db.nextCustomerId);
      && id !in old(db.customers)
      && db.customers == old(db.customers)[id := Customer(name, phone, email, address)]
      && db.vehicles == old(db.vehicles) && db.services == old(db.services)
      && message == "Customer added successfully (ID: " + NatToString(id) + ")"
  {
    if !HasText(name) {
      return false, "Name cannot be empty";
    }
    if !HasText(phone) {
      return false, "Phone number cannot be empty";
    }
    if !ValidatePhone(phone) {
      return false, "Invalid phone number format";
    }
    if email.Some? && email.value != [] && !ValidateEmail(email.value) {
      return false, "Invalid email format";
    }
    var taken := exists cid | cid in db.customers :: db.customers[cid].phone == phone;
    if taken {
      return false, "Customer with this phone number already exists";
    }
    var row := Customer(name, phone, email, address);
    PutCustomerKeepsRules(db.Snapshot(), db.nextCustomerId, row);
    var id := db.InsertCustomer(row);
    success, message := true, "Customer added successfully (ID: " + NatToString(id) + ")";
  }

  /** The columns an `UPDATE customers SET ...` statement can name. */
  datatype Column = NameColumn | PhoneColumn | EmailColumn | AddressColumn

  /**
   * The middle of `update_customer`: walks the optional arguments in order,
   * validating the phone and email it is given, and collects the columns of
   * the `UPDATE` (in `updates`) and the row they produce. Stops at the first
   * invalid value.
   */
  method CollectUpdates(was: Customer, name: Option<string>, phone: Option<string>,
                        email: Option<string>, address: Option<string>)
    returns (updates: seq<Column>, row: Customer, error: Option<string>)
    ensures Filled(phone) && !ValidatePhone(phone.value) ==> error == Some("Invalid phone number format")
    ensures !(Filled(phone) && !ValidatePhone(phone.value)) && EmailRejected(email) ==>
      error == Some("Invalid email format")
    ensures error.None? <==> !(Filled(phone) && !ValidatePhone(phone.value)) && !EmailRejected(email)
    ensures error.None? ==>
      && |updates| == (if Filled(name) then 1 else 0) + (if Filled(phone) then 1 else 0)
                      + (if email.Some? then 1 else 0) + (if address.Some? then 1 else 0)
      && (updates == [] <==> !Filled(name) && !Filled(phone) && email.None? && address.None?)
    ensures error.None? ==>
      row == UpdatedCustomer(was, name, phone, email, address)
  {
    row := was;
    updates := [];
    if name.Some? && HasText(name.value) {
      updates := updates + [NameColumn];
      row := row.(name := name.value);
    }
    if phone.Some? && HasText(phone.value) {
      if !ValidatePhone(phone.value) {
        return updates, row, Some("Invalid phone number format");
      }
      updates := updates + [PhoneColumn];
      row := row.(phone := phone.value);
    }
    if email.Some? {
      if email.value != [] && !ValidateEmail(email.value) {
        return updates, row, Some("Invalid email format");
      }
      updates := updates + [EmailColumn];
      row := row.(email := email);
    }
    if address.Some? {
      updates := updates + [AddressColumn];
      row := row.(address := address);
    }
    error := None;
  }

  /**
   * `update_customer`: a blank name or phone is skipped, email and address are
   * written whenever they are given (even empty), and the new phone is not
   * checked against the other customers.
   */
  method UpdateCustomer(db: Store, customerId: int, name: Option<string>, phone: Option<string>,
                        email: Option<string>, address: Option<string>)
    returns (success: bool, message: string)
    requires db.Valid() && WellFormed(db.Snapshot())
    modifies db
    ensures db.Valid() && WellFormed(db.Snapshot())
    ensures customerId == 0 ==> !success && message == "Customer ID is required"
    ensures customerId != 0 && customerId !in old(db.customers) ==>
      !success && message == "Customer not found"
    ensures customerId in old(db.customers) && Filled(phone) && !ValidatePhone(phone.value) ==>
      !success && message == "Invalid phone number format"
    ensures (customerId in old(db.customers) && !(Filled(phone) && !ValidatePhone(phone.value))
             && EmailRejected(email)) ==>
      !success && message == "Invalid email format"
    ensures (customerId in old(db.customers) && !(Filled(phone) && !ValidatePhone(phone.value))
             && !EmailRejected(email) && !Filled(name) && !Filled(phone) && email.None? && address.None?) ==>
      !success && message == "No fields to update"
    ensures success <==>
      customerId != 0 && customerId in old(db.customers)
      && !(Filled(phone) && !ValidatePhone(phone.value)) && !EmailRejected(email)
      && (Filled(name) || Filled(phone) || email.Some? || address.Some?)
    ensures !success ==> unchanged(db)
    ensures success ==>
      var was := old(db.customers)[customerId];
      && db.customers == old(db.customers)[customerId := UpdatedCustomer(was, name, phone, email, address)]
      && db.vehicles == old(db.vehicles) && db.services == old(db.services)
      && message == "Customer updated successfully"
  {
    if customerId == 0 {
      return false, "Customer ID is required";
    }
    if customerId !in db.customers {
      return false, "Customer not found";
    }
    var updates, row, error := CollectUpdates(db.customers[customerId], name, phone, email, address);
    if error.Some? {
      return false, error.value;
    }
    if |updates| == 0 {
      return false, "No fields to update";
    }
    UpdateKeepsRowRules(db.customers[customerId], name, phone, email, address);
    PutCustomerKeepsRules(db.Snapshot(), customerId, row);
    db.UpdateCustomer(customerId, row);
    success, message := true, "Customer updated successfully";
  }

  /** The customer row `update_customer` writes once its checks pass. */
  function UpdatedCustomer(was: Customer, name: Option<string>, phone: Option<string>,
                           email: Option<string>, address: Option<string>): Customer
  {
    Customer(if Filled(name) then name.value else was.name,
             if Filled(phone) then phone.value else was.phone,
             if email.Some? then email else was.email,
             if address.Some? then address else was.address)
  }

  /** Whatever passes the checks of `update_customer` keeps a valid row valid. */
  lemma UpdateKeepsRowRules(was: Customer, name: Option<string>, phone: Option<string>,
                            email: Option<string>, address: Option<string>)
    requires CustomerRowOk(was)
    requires !(Filled(phone) && !ValidatePhone(phone.value)) && !EmailRejected(email)
    ensures CustomerRowOk(UpdatedCustomer(was, name, phone, email, address))
  {
    var r := UpdatedCustomer(was, name, phone, email, address);
    assert HasText(r.name) by {
      if Filled(name) { assert r.name == name.value; } else { assert r.name == was.name; }
    }
    assert HasText(r.phone) && ValidatePhone(r.phone) by {
      if Filled(phone) { assert r.phone == phone.value; } else { assert r.phone == was.phone; }
    }
    assert r.email.Some? ==> ValidateEmail(r.email.value) by {
      if email.Some? { assert r.email == email; } else { assert r.email == was.email; }
    }
  }

  /** `delete_customer`: the customer goes, and the foreign keys cascade to its vehicles and their services. */
  method DeleteCustomer(db: Store, customerId: int) returns (success: bool, message: string)
    requires db.Valid() && WellFormed(db.Snapshot())
    modifies db
    ensures db.Valid() && WellFormed(db.Snapshot())
    ensures customerId == 0 ==> !success && message == "Customer ID is required"
    ensures customerId != 0 && customerId !in old(db.customers) ==>
      !success && message == "Customer not found"
    ensures success <==> customerId != 0 && customerId in old(db.customers)
    ensures !success ==> unchanged(db)
    ensures success ==>
      db.Snapshot() == DeleteCustomerCascade(old(db.Snapshot()), customerId)
      && message == "Customer deleted successfully (all associated vehicles and services removed)"
  {
    if customerId == 0 {
      return false, "Customer ID is required";
    }
    if customerId !in db.customers {
      return false, "Customer not found";
    }
    DeleteCustomerRemovesDependents(db.Snapshot(), customerId);
    db.DeleteCustomer(customerId);
    success, message := true, "Customer deleted successfully (all associated vehicles and services removed)";
  }

  // ------------------------------------------------------------------ search

  datatype CustomerRow = CustomerRow(customerId: int, customer: Customer)

  /** The outcome of a search: `(True, "Found n customer(s)", rows)`. */
  datatype Found = Found(success: bool, message: string, rows: seq<CustomerRow>)

  function RowIds(rows: seq<CustomerRow>): (ids: seq<int>)
    ensures |ids| == |rows| && forall i | 0 <= i < |rows| :: ids[i] == rows[i].customerId
  {
    seq(|rows|, i requires 0 <= i < |rows| => rows[i].customerId)
  }

  /** `name LIKE %term% OR phone LIKE %term% OR email LIKE %term%`; a NULL email never matches. */
  predicate CustomerMatches(c: Customer, term: string)
  {
    Contains(c.name, term) || Contains(c.phone, term) || (c.email.Some? && Contains(c.email.value, term))
  }

  function RowsFor(t: Tables, ids: seq<int>): (rows: seq<CustomerRow>)
    requires forall i | 0 <= i < |ids| :: ids[i] in t.customers
    ensures RowIds(rows) == ids
    ensures forall i | 0 <= i < |rows| :: rows[i].customer == t.customers[rows[i].customerId]
  {
    seq(|ids|, i requires 0 <= i < |ids| => CustomerRow(ids[i], t.customers[ids[i]]))
  }

  /**
   * `search_customers(search_term, customer_id)`: an id takes precedence over
   * a term; with neither, every customer. Rows come out in ascending id order
   * (the source orders only the last case; the others are left to the engine).
   */
  function SearchCustomers(t: Tables, term: string, customerId: int): (r: Found)
    ensures r.success && r.message == "Found " + NatToString(|r.rows|) + " customer(s)"
    ensures forall i | 0 <= i < |r.rows| ::
      r.rows[i].customerId in t.customers && r.rows[i].customer == t.customers[r.rows[i].customerId]
    ensures StrictlyIncreasing(RowIds(r.rows))
    ensures forall id :: id in RowIds(r.rows) <==>
      id in t.customers
      && (if customerId != 0 then id == customerId
          else term == [] || CustomerMatches(t.customers[id], term))
  {
    var ids :=
      if customerId != 0 then (if customerId in t.customers then [customerId] else [])
      else if term != [] then SortedIds(set id | id in t.customers && CustomerMatches(t.customers[id], term))
      else SortedIds(t.customers.Keys);
    assert forall i | 0 <= i < |ids| :: ids[i] in t.customers by {
      forall i | 0 <= i < |ids| ensures ids[i] in t.customers {
        assert ids[i] in ids;
      }
    }
    var rows := RowsFor(t, ids);
    Found(true, "Found " + NatToString(|rows|) + " customer(s)", rows)
  }

  /** A search by phone fragment finds the customer that `add_customer` just stored. */
  lemma SearchFindsAddedCustomer(t: Tables, id: int, c: Customer)
    requires id !in t.customers && c.phone != []
    ensures id in RowIds(SearchCustomers(t.(customers := t.customers[id := c]), c.phone, 0).rows)
  {
    assert OccursAt(c.phone, c.phone, 0) by {
      assert c.phone[0..|c.phone|] == c.phone;
    }
  }
}
