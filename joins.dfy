/**
 * The join the service queries, reports and invoices share:
 * `services s JOIN vehicles v ON s.vehicle_id = v.vehicle_id
 *  JOIN customers c ON v.customer_id = c.customer_id`,
 * each result row kept whole (the queries project different columns of it),
 * and the orders those queries ask for.
 */
module Joins {
  import opened Wrappers
  import opened Calendar
  import opened Sorting
  import opened Database

  /** One row of the three-way join, every column of the three tables kept. */
  datatype ServiceRecord = ServiceRecord(serviceId: int, service: Service, vehicle: Vehicle, customer: Customer)

  /** The inner joins keep a service only when its vehicle and that vehicle's owner exist. */
  predicate Joinable(t: Tables, sid: int)
  {
    sid in t.services && t.services[sid].vehicleId in t.vehicles
    && t.vehicles[t.services[sid].vehicleId].customerId in t.customers
  }

  /** The joined row of service `sid`. */
  function Record(t: Tables, sid: int): ServiceRecord
    requires Joinable(t, sid)
  {
    var s := t.services[sid];
    var v := t.vehicles[s.vehicleId];
    ServiceRecord(sid, s, v, t.customers[v.customerId])
  }

  function ServiceIds(rs: seq<ServiceRecord>): (ids: seq<int>)
    ensures |ids| == |rs| && forall i | 0 <= i < |rs| :: ids[i] == rs[i].serviceId
  {
    seq(|rs|, i requires 0 <= i < |rs| => rs[i].serviceId)
  }

  function RecordsFor(t: Tables, ids: seq<int>): (rs: seq<ServiceRecord>)
    requires forall i | 0 <= i < |ids| :: Joinable(t, ids[i])
    ensures |rs| == |ids|
    ensures forall i | 0 <= i < |ids| :: rs[i] == Record(t, ids[i])
  {
    seq(|ids|, i requires 0 <= i < |ids| && Joinable(t, ids[i]) => Record(t, ids[i]))
  }

  /** A reordering of the joined rows of `ids` holds exactly those rows. */
  lemma PermutedRecords(t: Tables, ids: seq<int>, rs: seq<ServiceRecord>)
    requires forall i | 0 <= i < |ids| :: Joinable(t, ids[i])
    requires multiset(rs) == multiset(RecordsFor(t, ids))
    ensures forall i | 0 <= i < |rs| :: rs[i].serviceId in ids && Joinable(t, rs[i].serviceId)
                                        && rs[i] == Record(t, rs[i].serviceId)
    ensures forall sid | sid in ids :: sid in ServiceIds(rs)
  {
    var base := RecordsFor(t, ids);
    forall i | 0 <= i < |rs|
      ensures rs[i].serviceId in ids && Joinable(t, rs[i].serviceId) && rs[i] == Record(t, rs[i].serviceId)
    {
      assert rs[i] in multiset(rs);
      assert rs[i] in base;
      var k :| 0 <= k < |base| && base[k] == rs[i];
      assert ids[k] in ids;
    }
    forall sid | sid in ids ensures sid in ServiceIds(rs) {
      var k :| 0 <= k < |ids| && ids[k] == sid;
      assert base[k] in multiset(base);
      assert base[k] in rs;
      var i :| 0 <= i < |rs| && rs[i] == base[k];
      assert ServiceIds(rs)[i] == sid;
    }
  }

  /**
   * The joined rows of the services in `ks`, ordered by `key` (`ORDER BY`):
   * exactly those services, each once, each with its own vehicle and owner.
   * Rows with equal keys stay in ascending id order.
   */
  function Ordered(t: Tables, ks: set<int>, key: ServiceRecord -> int): (rs: seq<ServiceRecord>)
    requires forall sid | sid in ks :: Joinable(t, sid)
    ensures |rs| == |ks|
    ensures forall i | 0 <= i < |rs| :: rs[i].serviceId in ks && Joinable(t, rs[i].serviceId)
                                        && rs[i] == Record(t, rs[i].serviceId)
    ensures forall sid :: sid in ServiceIds(rs) <==> sid in ks
    ensures SortedByKey(rs, key)
  {
    var ids := SortedIds(ks);
    assert forall i | 0 <= i < |ids| :: Joinable(t, ids[i]) by {
      forall i | 0 <= i < |ids| ensures Joinable(t, ids[i]) {
        assert ids[i] in ids;
      }
    }
    var base := RecordsFor(t, ids);
    var rs := SortByKey(base, key);
    SortIsSorted(base, key);
    PermutedRecords(t, ids, rs);
    rs
  }

  /** The services whose vehicle customer `cid` owns (`WHERE c.customer_id = cid`). */
  function CustomerServices(t: Tables, cid: int): (ks: set<int>)
    ensures forall sid :: sid in ks <==> Joinable(t, sid) && t.vehicles[t.services[sid].vehicleId].customerId == cid
  {
    set sid | sid in t.services && Joinable(t, sid) && t.vehicles[t.services[sid].vehicleId].customerId == cid
  }

  /** The key of `ORDER BY s.service_date DESC`. */
  function NewestKey(r: ServiceRecord): int
  {
    -DateKey(r.service.serviceDate)
  }

  /** The key of `ORDER BY s.next_service_date`; rows without a next date never reach it. */
  function NextDateKey(r: ServiceRecord): int
  {
    if r.service.nextServiceDate.Some? then DateKey(r.service.nextServiceDate.value) else 0
  }

  /** Rows sorted on `NewestKey` run from the latest service date to the earliest. */
  lemma NewestFirstOrder(rs: seq<ServiceRecord>)
    requires SortedByKey(rs, NewestKey)
    ensures forall i, j | 0 <= i < j < |rs| ::
      DateKey(rs[j].service.serviceDate) <= DateKey(rs[i].service.serviceDate)
  {
    forall i, j | 0 <= i < j < |rs|
      ensures DateKey(rs[j].service.serviceDate) <= DateKey(rs[i].service.serviceDate)
    {
      assert NewestKey(rs[i]) <= NewestKey(rs[j]);
    }
  }
}
