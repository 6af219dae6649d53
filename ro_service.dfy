/** RepairOrderService: creation with the duplicate-number check, lookups by
    id and by number that throw EntityNotFoundException, the partial update,
    appending a part, changing the status, deletion and the statistics. The
    class is @Transactional, so each response is built from the entity the
    save returned. */
module RepairOrderService {
  import opened Common
  import opened RepairOrderEntity
  import opened RepairOrderRepository

  /** CreateRepairOrderRequest; its status defaults to CREATED but a client
      may still send null. */
  datatype CreateRequest = CreateRequest(
    roNumber: Option<string>,
    status: Option<ROStatus>,
    vehicleDetails: Option<VehicleDetails>,
    jobDetails: Option<JobDetails>,
    technicianDetails: Option<TechnicianDetails>,
    parts: Option<seq<ROPart>>)

  /** UpdateRepairOrderRequest: every field optional. */
  datatype UpdateRequest = UpdateRequest(
    status: Option<ROStatus>,
    vehicleDetails: Option<VehicleDetails>,
    jobDetails: Option<JobDetails>,
    technicianDetails: Option<TechnicianDetails>,
    parts: Option<seq<ROPart>>)

  datatype RepairOrderStats = RepairOrderStats(
    totalCount: nat,
    createdCount: nat,
    inProgressCount: nat,
    completedCount: nat)

  /** Java's string concatenation of a nullable String. */
  function NullableText(s: Option<string>): string {
    if s.Some? then s.value else "null"
  }

  function NotFoundById(id: int): ROError {
    EntityNotFound("Repair order not found with id: " + IntToString(id))
  }

  function NotFoundByNumber(n: string): ROError {
    EntityNotFound("Repair order not found with number: " + n)
  }

  function DuplicateNumber(n: Option<string>): ROError {
    IllegalArgument("Repair order with number " + NullableText(n) + " already exists")
  }

  /** The entity createRepairOrder hands to save: the request's fields, the
      status or CREATED, the parts or an empty list, both timestamps now. */
  function CreatedOrder(req: CreateRequest, now: Instant): (r: RepairOrderRow)
    ensures r.id.None? && r.roNumber == req.roNumber
    ensures req.status.Some? ==> r.status == req.status
    ensures req.status.None? ==> r.status == Some(CREATED)
    ensures r.vehicleDetails == req.vehicleDetails && r.jobDetails == req.jobDetails
    ensures r.technicianDetails == req.technicianDetails
    ensures r.parts == PartsOrEmpty(req.parts)
    ensures r.createdAt == Some(now) && r.updatedAt == Some(now)
  {
    RepairOrderRow(None, req.roNumber, Some(if req.status.Some? then req.status.value else CREATED),
                   Some(now), Some(now), req.vehicleDetails, req.jobDetails, req.technicianDetails,
                   PartsOrEmpty(req.parts))
  }

  /** createRepairOrder: a number already present (null included, as the
      derived query reads it as IS NULL) is refused and nothing is stored;
      otherwise the order is inserted under the next identity value. */
  method CreateRepairOrder(db: RoStore, req: CreateRequest, now: Instant) returns (r: Result<RepairOrderRow, ROError>)
    requires db.Valid()
    modifies db
    ensures db.Valid()
    ensures ExistsByRoNumber(old(db.orders), req.roNumber) ==>
      r == Failure(DuplicateNumber(req.roNumber)) && db.orders == old(db.orders)
    ensures !ExistsByRoNumber(old(db.orders), req.roNumber) ==>
      var row := Inserted(CreatedOrder(req, now), old(db.nextId), now);
      r == Success(row) && db.orders == old(db.orders)[old(db.nextId) := row]
  {
    if exists k :: k in db.orders && db.orders[k].roNumber == req.roNumber {
      return Failure(DuplicateNumber(req.roNumber));
    }
    var order := new RepairOrder();
    order.SetRoNumber(req.roNumber);
    order.SetStatus(Some(if req.status.Some? then req.status.value else CREATED));
    order.SetVehicleDetails(req.vehicleDetails);
    order.SetJobDetails(req.jobDetails);
    order.SetTechnicianDetails(req.technicianDetails);
    order.SetParts(req.parts);
    order.SetCreatedAt(Some(now));
    order.SetUpdatedAt(Some(now));
    assert order.Row() == CreatedOrder(req, now);
    r := db.Save(order, now);
  }

  /** A created order is found by its number, and a second creation with the
      same number is refused. */
  lemma {:induction false} CreatedOrderIsFound(t: ROTable, nextId: int, req: CreateRequest, now: Instant)
    requires req.roNumber.Some?
    ensures var t2 := t[nextId := Inserted(CreatedOrder(req, now), nextId, now)];
      && nextId in FindByRoNumber(t2, req.roNumber)
      && ExistsByRoNumber(t2, req.roNumber)
  {
    var t2 := t[nextId := Inserted(CreatedOrder(req, now), nextId, now)];
    assert nextId in t2 && t2[nextId].roNumber == req.roNumber;
  }

  method GetRepairOrderById(db: RoStore, id: int) returns (r: Result<RepairOrderRow, ROError>)
    ensures id in db.orders ==> r == Success(db.orders[id])
    ensures id !in db.orders ==> r == Failure(NotFoundById(id))
  {
    if id in db.orders {
      r := Success(db.orders[id]);
    } else {
      r := Failure(NotFoundById(id));
    }
  }

  /** getRepairOrderByNumber: the unique order with that number. */
  method GetRepairOrderByNumber(db: RoStore, n: string) returns (r: Result<RepairOrderRow, ROError>)
    requires db.Valid()
    ensures r.Success? <==> ExistsByRoNumber(db.orders, Some(n))
    ensures r.Success? ==> FindByRoNumber(db.orders, Some(n)).Values == {r.value}
    ensures r.Failure? ==> r.error == NotFoundByNumber(n)
  {
    var k := db.LookupRoNumber(n);
    if k.None? {
      return Failure(NotFoundByNumber(n));
    }
    var found := FindByRoNumber(db.orders, Some(n));
    assert found.Values == {db.orders[k.value]} by {
      assert found.Keys == {k.value};
      assert k.value in found;
    }
    r := Success(db.orders[k.value]);
  }

  /** updateRepairOrderFields: each non-null request field replaces the
      stored one, a null one keeps it, and updatedAt is refreshed. */
  function UpdatedFields(o: RepairOrderRow, req: UpdateRequest, now: Instant): (r: RepairOrderRow)
    ensures req.status.Some? ==> r.status == req.status
    ensures req.status.None? ==> r.status == o.status
    ensures req.vehicleDetails.Some? ==> r.vehicleDetails == req.vehicleDetails
    ensures req.vehicleDetails.None? ==> r.vehicleDetails == o.vehicleDetails
    ensures req.jobDetails.Some? ==> r.jobDetails == req.jobDetails
    ensures req.jobDetails.None? ==> r.jobDetails == o.jobDetails
    ensures req.technicianDetails.Some? ==> r.technicianDetails == req.technicianDetails
    ensures req.technicianDetails.None? ==> r.technicianDetails == o.technicianDetails
    ensures req.parts.Some? ==> r.parts == req.parts.value
    ensures req.parts.None? ==> r.parts == o.parts
    ensures r.updatedAt == Some(now)
    ensures r.id == o.id && r.roNumber == o.roNumber && r.createdAt == o.createdAt
  {
    var o1 := if req.status.Some? then o.(status := req.status) else o;
    var o2 := if req.vehicleDetails.Some? then o1.(vehicleDetails := req.vehicleDetails) else o1;
    var o3 := if req.jobDetails.Some? then o2.(jobDetails := req.jobDetails) else o2;
    var o4 := if req.technicianDetails.Some? then o3.(technicianDetails := req.technicianDetails) else o3;
    var o5 := if req.parts.Some? then o4.(parts := PartsOrEmpty(req.parts)) else o4;
    o5.(updatedAt := Some(now))
  }

  /** An empty request only refreshes the timestamp. */
  lemma EmptyUpdateOnlyTouches(o: RepairOrderRow, now: Instant)
    ensures UpdatedFields(o, UpdateRequest(None, None, None, None, None), now) == o.(updatedAt := Some(now))
  {
  }

  /** Applying the same request twice is applying it once, at the later time. */
  lemma UpdateIdempotent(o: RepairOrderRow, req: UpdateRequest, now: Instant, later: Instant)
    ensures UpdatedFields(UpdatedFields(o, req, now), req, later) == UpdatedFields(o, req, later)
  {
  }

  /** A request that names every field decides the whole order except its
      identity and creation time. */
  lemma FullUpdateIgnoresStoredFields(o: RepairOrderRow, p: RepairOrderRow, req: UpdateRequest, now: Instant)
    requires req.status.Some? && req.vehicleDetails.Some? && req.jobDetails.Some?
    requires req.technicianDetails.Some? && req.parts.Some?
    requires o.id == p.id && o.roNumber == p.roNumber && o.createdAt == p.createdAt
    ensures UpdatedFields(o, req, now) == UpdatedFields(p, req, now)
  {
  }

  method UpdateRepairOrderFields(e: RepairOrder, req: UpdateRequest, now: Instant)
    modifies e
    ensures e.Row() == UpdatedFields(old(e.Row()), req, now)
  {
    if req.status.Some? {
      e.SetStatus(req.status);
    }
    if req.vehicleDetails.Some? {
      e.SetVehicleDetails(req.vehicleDetails);
    }
    if req.jobDetails.Some? {
      e.SetJobDetails(req.jobDetails);
    }
    if req.technicianDetails.Some? {
      e.SetTechnicianDetails(req.technicianDetails);
    }
    if req.parts.Some? {
      e.SetParts(req.parts);
    }
    e.SetUpdatedAt(Some(now));
  }

  /** A stored order keeps its own number, so saving it back never clashes. */
  lemma StoredNumberNotTaken(t: ROTable, k: int, o: RepairOrderRow)
    requires UniqueRoNumbers(t) && k in t && o.roNumber == t[k].roNumber
    ensures !RoNumberTakenElsewhere(t, o.roNumber, Some(k))
  {
  }

  /** Load the stored order `k`, apply the request, save it back. */
  method UpdateStored(db: RoStore, k: int, req: UpdateRequest, now: Instant) returns (r: Result<RepairOrderRow, ROError>)
    requires db.Valid() && k in db.orders
    modifies db
    ensures db.Valid()
    ensures var row := UpdatedFields(old(db.orders)[k], req, now);
      r == Success(row) && db.orders == old(db.orders)[k := row]
  {
    var order := new RepairOrder.Load(db.orders[k]);
    UpdateRepairOrderFields(order, req, now);
    StoredNumberNotTaken(db.orders, k, order.Row());
    r := db.Save(order, now);
  }

  method UpdateRepairOrder(db: RoStore, id: int, req: UpdateRequest, now: Instant)
    returns (r: Result<RepairOrderRow, ROError>)
    requires db.Valid()
    modifies db
    ensures db.Valid()
    ensures id !in old(db.orders) ==> r == Failure(NotFoundById(id)) && db.orders == old(db.orders)
    ensures id in old(db.orders) ==>
      var row := UpdatedFields(old(db.orders)[id], req, now);
      r == Success(row) && db.orders == old(db.orders)[id := row]
  {
    if id !in db.orders {
      return Failure(NotFoundById(id));
    }
    r := UpdateStored(db, id, req, now);
  }

  /** The stored order with that number, when there is one. */
  predicate NumberedAt(t: ROTable, k: int, n: string) {
    k in t && t[k].roNumber == Some(n)
  }

  method UpdateRepairOrderByNumber(db: RoStore, n: string, req: UpdateRequest, now: Instant)
    returns (r: Result<RepairOrderRow, ROError>)
    requires db.Valid()
    modifies db
    ensures db.Valid()
    ensures !ExistsByRoNumber(old(db.orders), Some(n)) ==>
      r == Failure(NotFoundByNumber(n)) && db.orders == old(db.orders)
    ensures forall k :: NumberedAt(old(db.orders), k, n) ==>
      var row := UpdatedFields(old(db.orders)[k], req, now);
      r == Success(row) && db.orders == old(db.orders)[k := row]
  {
    var k := db.LookupRoNumber(n);
    if k.None? {
      return Failure(NotFoundByNumber(n));
    }
    assert forall j :: NumberedAt(db.orders, j, n) ==> j == k.value by {
      forall j | NumberedAt(db.orders, j, n) ensures j == k.value {
        assert j in FindByRoNumber(db.orders, Some(n));
      }
    }
    r := UpdateStored(db, k.value, req, now);
  }

  method DeleteRepairOrder(db: RoStore, id: int) returns (r: Result<(), ROError>)
    requires db.Valid()
    modifies db
    ensures db.Valid()
    ensures id !in old(db.orders) ==> r == Failure(NotFoundById(id)) && db.orders == old(db.orders)
    ensures id in old(db.orders) ==> r == Success(()) && db.orders == old(db.orders) - {id}
  {
    if id !in db.orders {
      return Failure(NotFoundById(id));
    }
    db.Delete(id);
    r := Success(());
  }

  /** deleteRepairOrderByNumber removes exactly the rows with that number. */
  method DeleteRepairOrderByNumber(db: RoStore, n: string) returns (r: Result<(), ROError>)
    requires db.Valid()
    modifies db
    ensures db.Valid()
    ensures !ExistsByRoNumber(old(db.orders), Some(n)) ==>
      r == Failure(NotFoundByNumber(n)) && db.orders == old(db.orders)
    ensures ExistsByRoNumber(old(db.orders), Some(n)) ==>
      r == Success(()) && db.orders == old(db.orders) - FindByRoNumber(old(db.orders), Some(n)).Keys
  {
    var k := db.LookupRoNumber(n);
    if k.None? {
      return Failure(NotFoundByNumber(n));
    }
    db.Delete(k.value);
    r := Success(());
  }

  /** What addPartToRepairOrder stores: the part appended, updatedAt now. */
  function WithAddedPart(o: RepairOrderRow, p: ROPart, now: Instant): (r: RepairOrderRow)
    ensures |r.parts| == |o.parts| + 1 && r.parts[|o.parts|] == p
    ensures r.parts[..|o.parts|] == o.parts
    ensures r == o.(parts := o.parts + [p], updatedAt := Some(now))
  {
    o.(parts := o.parts + [p], updatedAt := Some(now))
  }

  /** Adding parts one after the other lists them in that order after the
      existing ones. */
  lemma AddPartsInOrder(o: RepairOrderRow, p: ROPart, q: ROPart, now: Instant, later: Instant)
    ensures WithAddedPart(WithAddedPart(o, p, now), q, later).parts == o.parts + [p, q]
  {
  }

  method AddPartToRepairOrder(db: RoStore, n: string, p: ROPart, now: Instant)
    returns (r: Result<RepairOrderRow, ROError>)
    requires db.Valid()
    modifies db
    ensures db.Valid()
    ensures !ExistsByRoNumber(old(db.orders), Some(n)) ==>
      r == Failure(NotFoundByNumber(n)) && db.orders == old(db.orders)
    ensures forall k :: NumberedAt(old(db.orders), k, n) ==>
      var row := WithAddedPart(old(db.orders)[k], p, now);
      r == Success(row) && db.orders == old(db.orders)[k := row]
  {
    var k := db.LookupRoNumber(n);
    if k.None? {
      return Failure(NotFoundByNumber(n));
    }
    assert forall j :: NumberedAt(db.orders, j, n) ==> j == k.value by {
      forall j | NumberedAt(db.orders, j, n) ensures j == k.value {
        assert j in FindByRoNumber(db.orders, Some(n));
      }
    }
    var order := new RepairOrder.Load(db.orders[k.value]);
    order.AddPart(p);
    order.SetUpdatedAt(Some(now));
    StoredNumberNotTaken(db.orders, k.value, order.Row());
    r := db.Save(order, now);
  }

  /** What updateStatus stores: the new status and updatedAt, nothing else. */
  function WithStatus(o: RepairOrderRow, s: ROStatus, now: Instant): (r: RepairOrderRow)
    ensures r.status == Some(s) && r.updatedAt == Some(now)
    ensures r == o.(status := Some(s), updatedAt := Some(now))
  {
    o.(status := Some(s), updatedAt := Some(now))
  }

  /** updateStatus is the partial update that names only the status. */
  lemma StatusIsPartialUpdate(o: RepairOrderRow, s: ROStatus, now: Instant)
    ensures WithStatus(o, s, now) == UpdatedFields(o, UpdateRequest(Some(s), None, None, None, None), now)
  {
  }

  method UpdateStatus(db: RoStore, n: string, s: ROStatus, now: Instant)
    returns (r: Result<RepairOrderRow, ROError>)
    requires db.Valid()
    modifies db
    ensures db.Valid()
    ensures !ExistsByRoNumber(old(db.orders), Some(n)) ==>
      r == Failure(NotFoundByNumber(n)) && db.orders == old(db.orders)
    ensures forall k :: NumberedAt(old(db.orders), k, n) ==>
      var row := WithStatus(old(db.orders)[k], s, now);
      r == Success(row) && db.orders == old(db.orders)[k := row]
  {
    var k := db.LookupRoNumber(n);
    if k.None? {
      return Failure(NotFoundByNumber(n));
    }
    assert forall j :: NumberedAt(db.orders, j, n) ==> j == k.value by {
      forall j | NumberedAt(db.orders, j, n) ensures j == k.value {
        assert j in FindByRoNumber(db.orders, Some(n));
      }
    }
    var order := new RepairOrder.Load(db.orders[k.value]);
    order.SetStatus(Some(s));
    order.SetUpdatedAt(Some(now));
    StoredNumberNotTaken(db.orders, k.value, order.Row());
    r := db.Save(order, now);
  }

  /** getRepairOrderStats: the row count and the three status counts. */
  function RepairOrderStatsOf(t: ROTable): (s: RepairOrderStats)
    ensures s.totalCount == |t|
    ensures s.createdCount == |FindByStatus(t, Some(CREATED)).Keys|
    ensures s.inProgressCount == |FindByStatus(t, Some(IN_PROGRESS)).Keys|
    ensures s.completedCount == |FindByStatus(t, Some(COMPLETED)).Keys|
  {
    CountIsFoundSize(t, CREATED);
    CountIsFoundSize(t, IN_PROGRESS);
    CountIsFoundSize(t, COMPLETED);
    RepairOrderStats(|t|, CountByStatus(t, CREATED), CountByStatus(t, IN_PROGRESS), CountByStatus(t, COMPLETED))
  }

  /** Three disjoint sets inside a fourth are no larger than it together,
      and exactly as large when they cover it. */
  lemma DisjointWithin(a: set<int>, b: set<int>, c: set<int>, all: set<int>)
    requires a !! b && a !! c && b !! c && a + b + c <= all
    ensures |a| + |b| + |c| <= |all|
    ensures a + b + c == all ==> |a| + |b| + |c| == |all|
  {
    assert |a + b| == |a| + |b|;
    assert |a + b + c| == |a + b| + |c|;
    var u := a + b + c;
    assert all == u + (all - u);
    assert |all| == |u| + |all - u|;
  }

  /** The status counts never add up to more than the total; they add up to
      it exactly when every order has a status. */
  lemma {:induction false} StatusCountsBounded(t: ROTable)
    ensures var s := RepairOrderStatsOf(t);
      s.createdCount + s.inProgressCount + s.completedCount <= s.totalCount
    ensures (forall k :: k in t ==> t[k].status.Some?) ==>
      var s := RepairOrderStatsOf(t);
      s.createdCount + s.inProgressCount + s.completedCount == s.totalCount
  {
    var a := FindByStatus(t, Some(CREATED)).Keys;
    var b := FindByStatus(t, Some(IN_PROGRESS)).Keys;
    var c := FindByStatus(t, Some(COMPLETED)).Keys;
    DisjointWithin(a, b, c, t.Keys);
    if forall k :: k in t ==> t[k].status.Some? {
      forall k | k in t ensures k in a + b + c {
        match t[k].status.value
        case CREATED => assert k in a;
        case IN_PROGRESS => assert k in b;
        case COMPLETED => assert k in c;
      }
      assert t.Keys == a + b + c;
    }
  }
}
