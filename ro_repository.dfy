/** RepairOrderRepository: the derived and JPQL queries over repair_orders,
    and the table itself with its IDENTITY key, its unique RO number and the
    two Hibernate timestamps. A finder's result is the sub-map of the rows it
    returns; the order of a returned list is the database's and is not
    modelled. */
module RepairOrderRepository {
  import opened Common
  import opened RepairOrderEntity

  /** repair_orders, keyed by the generated Long id. */
  type ROTable = map<int, RepairOrderRow>

  datatype ROError =
    | EntityNotFound(message: string)
    | IllegalArgument(message: string)
    | UniqueViolation(column: string)

  /** findByRoNumber, a derived query: a null argument becomes `IS NULL`. */
  function FindByRoNumber(t: ROTable, n: Option<string>): (r: ROTable)
    ensures forall k :: k in r <==> k in t && t[k].roNumber == n
    ensures forall k :: k in r ==> r[k] == t[k]
  {
    map k | k in t && t[k].roNumber == n :: t[k]
  }

  /** existsByRoNumber, derived the same way. */
  predicate ExistsByRoNumber(t: ROTable, n: Option<string>) {
    exists k :: k in t && t[k].roNumber == n
  }

  function FindByStatus(t: ROTable, s: Option<ROStatus>): (r: ROTable)
    ensures forall k :: k in r <==> k in t && t[k].status == s
    ensures forall k :: k in r ==> r[k] == t[k]
  {
    map k | k in t && t[k].status == s :: t[k]
  }

  /** The JPQL queries compare with `=`, so a null embedded value never
      matches. */
  predicate TechnicianIdIs(o: RepairOrderRow, id: string) {
    o.technicianDetails.Some? && o.technicianDetails.value.technicianId == Some(id)
  }

  function FindByTechnicianId(t: ROTable, id: string): (r: ROTable)
    ensures forall k :: k in r <==> k in t && TechnicianIdIs(t[k], id)
    ensures forall k :: k in r ==> r[k] == t[k]
  {
    map k | k in t && TechnicianIdIs(t[k], id) :: t[k]
  }

  predicate VinIs(o: RepairOrderRow, vin: string) {
    o.vehicleDetails.Some? && o.vehicleDetails.value.vehicleVin == Some(vin)
  }

  function FindByVehicleVin(t: ROTable, vin: string): (r: ROTable)
    ensures forall k :: k in r <==> k in t && VinIs(t[k], vin)
    ensures forall k :: k in r ==> r[k] == t[k]
  {
    map k | k in t && VinIs(t[k], vin) :: t[k]
  }

  predicate MakeAndModelAre(o: RepairOrderRow, make: string, model: string) {
    && o.vehicleDetails.Some?
    && o.vehicleDetails.value.vehicleMake == Some(make)
    && o.vehicleDetails.value.vehicleModel == Some(model)
  }

  function FindByVehicleMakeAndModel(t: ROTable, make: string, model: string): (r: ROTable)
    ensures forall k :: k in r <==> k in t && MakeAndModelAre(t[k], make, model)
    ensures forall k :: k in r ==> r[k] == t[k]
  {
    map k | k in t && MakeAndModelAre(t[k], make, model) :: t[k]
  }

  predicate JobCategoryIs(o: RepairOrderRow, category: string) {
    o.jobDetails.Some? && o.jobDetails.value.jobCategory == Some(category)
  }

  function FindByJobCategory(t: ROTable, category: string): (r: ROTable)
    ensures forall k :: k in r <==> k in t && JobCategoryIs(t[k], category)
    ensures forall k :: k in r ==> r[k] == t[k]
  {
    map k | k in t && JobCategoryIs(t[k], category) :: t[k]
  }

  /** `estimatedHours > :hours`, strictly. */
  predicate MoreHoursThan(o: RepairOrderRow, hours: real) {
    && o.jobDetails.Some?
    && o.jobDetails.value.estimatedHours.Some?
    && o.jobDetails.value.estimatedHours.value > hours
  }

  function FindByEstimatedHoursGreaterThan(t: ROTable, hours: real): (r: ROTable)
    ensures forall k :: k in r <==> k in t && MoreHoursThan(t[k], hours)
    ensures forall k :: k in r ==> r[k] == t[k]
  {
    map k | k in t && MoreHoursThan(t[k], hours) :: t[k]
  }

  /** `vehicleYear BETWEEN :startYear AND :endYear`. */
  predicate YearBetween(o: RepairOrderRow, startYear: int, endYear: int) {
    && o.vehicleDetails.Some?
    && o.vehicleDetails.value.vehicleYear.Some?
    && startYear <= o.vehicleDetails.value.vehicleYear.value <= endYear
  }

  function FindByVehicleYearRange(t: ROTable, startYear: int, endYear: int): (r: ROTable)
    ensures forall k :: k in r <==> k in t && YearBetween(t[k], startYear, endYear)
    ensures forall k :: k in r ==> r[k] == t[k]
  {
    map k | k in t && YearBetween(t[k], startYear, endYear) :: t[k]
  }

  /** countByStatus: `COUNT(ro) WHERE ro.status = :status`. */
  function CountByStatus(t: ROTable, s: ROStatus): nat {
    |set k | k in t && t[k].status == Some(s)|
  }

  /** existsByRoNumber holds exactly when findByRoNumber finds a row. */
  lemma ExistsIffFound(t: ROTable, n: Option<string>)
    ensures ExistsByRoNumber(t, n) <==> FindByRoNumber(t, n) != map[]
  {
    if ExistsByRoNumber(t, n) {
      var k :| k in t && t[k].roNumber == n;
      assert k in FindByRoNumber(t, n);
    } else {
      var r := FindByRoNumber(t, n);
      assert forall k :: k !in r;
      assert r.Keys == {};
    }
  }

  /** countByStatus counts the rows findByStatus returns. */
  lemma CountIsFoundSize(t: ROTable, s: ROStatus)
    ensures CountByStatus(t, s) == |FindByStatus(t, Some(s)).Keys|
  {
    assert FindByStatus(t, Some(s)).Keys == set k | k in t && t[k].status == Some(s);
  }

  /** Both ends of the year range are included. */
  lemma YearRangeInclusive(t: ROTable, k: int, startYear: int, endYear: int)
    requires k in t && startYear <= endYear && t[k].vehicleDetails.Some?
    requires t[k].vehicleDetails.value.vehicleYear == Some(startYear)
          || t[k].vehicleDetails.value.vehicleYear == Some(endYear)
    ensures k in FindByVehicleYearRange(t, startYear, endYear)
  {
  }

  /** The make-and-model query is the intersection of a make match and a
      model match: an order with the right make but another model is not
      found. */
  lemma MakeAndModelBothRequired(t: ROTable, k: int, make: string, model: string)
    requires k in t && t[k].vehicleDetails.Some?
    requires t[k].vehicleDetails.value.vehicleMake == Some(make)
    requires t[k].vehicleDetails.value.vehicleModel != Some(model)
    ensures k !in FindByVehicleMakeAndModel(t, make, model)
  {
  }

  /** The unique constraint on ro_number; SQL lets several NULLs through. */
  predicate UniqueRoNumbers(t: ROTable) {
    forall a, b :: a in t && b in t && t[a].roNumber.Some? && t[a].roNumber == t[b].roNumber ==> a == b
  }

  lemma RoNumberFindsAtMostOne(t: ROTable, n: string)
    requires UniqueRoNumbers(t)
    ensures |FindByRoNumber(t, Some(n)).Keys| <= 1
  {
    var found := FindByRoNumber(t, Some(n));
    if found.Keys != {} {
      NonEmptyHasElement(found.Keys);
      var a :| a in found.Keys;
      forall b | b in found ensures b == a {
        assert t[a].roNumber == t[b].roNumber;
      }
      assert found.Keys == {a};
    } else {
      assert found.Keys == {};
    }
  }

  /** Another row than the entity's own holds this RO number. */
  predicate RoNumberTakenElsewhere(t: ROTable, n: Option<string>, id: Option<int>) {
    n.Some? && exists k :: k in t && Some(k) != id && t[k].roNumber == n
  }

  /** A stored order: its key is its id and lies below the identity counter. */
  predicate StoredOrder(o: RepairOrderRow, k: int, nextId: int) {
    o.id == Some(k) && k < nextId
  }

  /** A first save: the IDENTITY column assigns the id, @CreationTimestamp and
      @UpdateTimestamp both stamp the insert. */
  function Inserted(o: RepairOrderRow, id: int, now: Instant): (r: RepairOrderRow)
    ensures r.id == Some(id) && r.createdAt == Some(now) && r.updatedAt == Some(now)
    ensures r.roNumber == o.roNumber && r.status == o.status && r.parts == o.parts
    ensures r == o.(id := Some(id), createdAt := Some(now), updatedAt := Some(now))
  {
    o.(id := Some(id), createdAt := Some(now), updatedAt := Some(now))
  }

  /** A later save over the stored row: @UpdateTimestamp stamps updatedAt,
      and createdAt, mapped with updatable = false, keeps the stored value
      whatever the entity carries. */
  function Updated(o: RepairOrderRow, stored: RepairOrderRow, now: Instant): (r: RepairOrderRow)
    ensures r.updatedAt == Some(now) && r.createdAt == stored.createdAt && r.id == o.id
    ensures r.(createdAt := o.createdAt, updatedAt := o.updatedAt) == o
  {
    o.(createdAt := stored.createdAt, updatedAt := Some(now))
  }

  /** Save updates the row with the entity's id, or inserts a new row. */
  predicate IsUpdate(t: ROTable, id: Option<int>) {
    id.Some? && id.value in t
  }

  class RoStore {
    var orders: ROTable
    var nextId: int

    predicate Valid()
      reads this
    {
      && (forall k :: k in orders ==> StoredOrder(orders[k], k, nextId))
      && UniqueRoNumbers(orders)
    }

    constructor ()
      ensures Valid() && orders == map[]
    {
      orders := map[];
      nextId := 1;
    }

    /** save(): an entity with a stored id is merged into its row, keeping
        the row's createdAt; any other entity, including one whose id names
        no row, is inserted under a fresh identity value. An RO number held by another row violates the
        unique constraint and changes nothing. */
    method Save(e: RepairOrder, now: Instant) returns (r: Result<RepairOrderRow, ROError>)
      requires Valid()
      modifies this
      ensures Valid()
      ensures RoNumberTakenElsewhere(old(orders), e.roNumber, e.id) ==>
        r == Failure(UniqueViolation("ro_number")) && orders == old(orders) && nextId == old(nextId)
      ensures !RoNumberTakenElsewhere(old(orders), e.roNumber, e.id) && IsUpdate(old(orders), e.id) ==>
        var row := Updated(e.Row(), old(orders)[e.id.value], now);
        r == Success(row) && orders == old(orders)[e.id.value := row] && nextId == old(nextId)
      ensures !RoNumberTakenElsewhere(old(orders), e.roNumber, e.id) && !IsUpdate(old(orders), e.id) ==>
        var row := Inserted(e.Row(), old(nextId), now);
        r == Success(row) && orders == old(orders)[old(nextId) := row] && nextId == old(nextId) + 1
    {
      if e.roNumber.Some? && exists k :: k in orders && Some(k) != e.id && orders[k].roNumber == e.roNumber {
        return Failure(UniqueViolation("ro_number"));
      }
      var row;
      if e.id.Some? && e.id.value in orders {
        row := Updated(e.Row(), orders[e.id.value], now);
        orders := orders[e.id.value := row];
      } else {
        row := Inserted(e.Row(), nextId, now);
        orders := orders[nextId := row];
        nextId := nextId + 1;
      }
      r := Success(row);
    }

    /** findByRoNumber as the service consumes it: the key of the unique row
        with that number, if any. */
    method LookupRoNumber(n: string) returns (k: Option<int>)
      requires Valid()
      ensures k.None? <==> !ExistsByRoNumber(orders, Some(n))
      ensures k.Some? ==> FindByRoNumber(orders, Some(n)).Keys == {k.value}
    {
      if !exists j :: j in orders && orders[j].roNumber == Some(n) {
        return None;
      }
      var j :| j in orders && orders[j].roNumber == Some(n);
      var found := FindByRoNumber(orders, Some(n));
      forall i | i in found ensures i == j {
        assert orders[i].roNumber == orders[j].roNumber;
      }
      assert found.Keys == {j};
      k := Some(j);
    }

    method Delete(k: int)
      requires Valid()
      modifies this
      ensures Valid()
      ensures orders == old(orders) - {k} && nextId == old(nextId)
    {
      orders := orders - {k};
    }
  }
}
