/** The repair-order service's RepairOrder entity: its embedded details, its
    JSON-stored list of parts, and the helpers that edit that list in place. */
module RepairOrderEntity {
  import opened Common

  /** The statuses the service refers to by name. */
  datatype ROStatus = CREATED | IN_PROGRESS | COMPLETED

  datatype VehicleDetails = VehicleDetails(
    vehicleVin: Option<string>,
    vehicleMake: Option<string>,
    vehicleModel: Option<string>,
    vehicleYear: Option<int>,
    mileage: Option<int>)

  datatype JobDetails = JobDetails(
    jobDescription: Option<string>,
    estimatedHours: Option<real>,
    laborRate: Option<real>,
    jobCategory: Option<string>)

  datatype TechnicianDetails = TechnicianDetails(
    technicianName: Option<string>,
    technicianId: Option<string>,
    technicianLevel: Option<string>)

  /** One entry of the parts column. */
  datatype ROPart = ROPart(
    partId: Option<string>,
    partNumber: Option<string>,
    quantity: Option<int>,
    unitPrice: Option<real>,
    addedAt: Option<Instant>)

  /** Every column of repair_orders. The parts list is never null: the
      constructors start it empty, the setter replaces null by an empty list
      and the column converter reads a missing value as an empty list. */
  datatype RepairOrderRow = RepairOrderRow(
    id: Option<int>,
    roNumber: Option<string>,
    status: Option<ROStatus>,
    createdAt: Option<Instant>,
    updatedAt: Option<Instant>,
    vehicleDetails: Option<VehicleDetails>,
    jobDetails: Option<JobDetails>,
    technicianDetails: Option<TechnicianDetails>,
    parts: seq<ROPart>)

  function NewRepairOrder(): (r: RepairOrderRow)
    ensures r.parts == [] && r.id.None? && r.roNumber.None? && r.status.None?
    ensures r.createdAt.None? && r.updatedAt.None?
    ensures r.vehicleDetails.None? && r.jobDetails.None? && r.technicianDetails.None?
  {
    RepairOrderRow(None, None, None, None, None, None, None, None, [])
  }

  /** setParts: a null list is stored as an empty one. */
  function PartsOrEmpty(parts: Option<seq<ROPart>>): (r: seq<ROPart>)
    ensures parts.Some? ==> r == parts.value
    ensures parts.None? ==> r == []
  {
    if parts.Some? then parts.value else []
  }

  /** The parts `removeIf(p -> p.getPartNumber().equals(n))` keeps, in order. */
  function WithoutPart(parts: seq<ROPart>, n: string): (r: seq<ROPart>)
    ensures |r| <= |parts|
    ensures forall p :: p in r ==> p in parts && p.partNumber != Some(n)
    ensures forall p :: p in parts && p.partNumber != Some(n) ==> p in r
  {
    if |parts| == 0 then []
    else if parts[0].partNumber == Some(n) then WithoutPart(parts[1..], n)
    else [parts[0]] + WithoutPart(parts[1..], n)
  }

  /** The number of parts with that part number. */
  function Matches(parts: seq<ROPart>, n: string): nat {
    if |parts| == 0 then 0
    else (if parts[0].partNumber == Some(n) then 1 else 0) + Matches(parts[1..], n)
  }

  /** Removal keeps the order of what remains: it distributes over
      concatenation. */
  lemma {:induction false} WithoutPartKeepsOrder(a: seq<ROPart>, b: seq<ROPart>, n: string)
    ensures WithoutPart(a + b, n) == WithoutPart(a, n) + WithoutPart(b, n)
    decreases |a|
  {
    if |a| > 0 {
      assert (a + b)[1..] == a[1..] + b;
      WithoutPartKeepsOrder(a[1..], b, n);
    } else {
      assert a + b == b;
    }
  }

  /** Exactly the matching parts are removed. */
  lemma {:induction false} WithoutPartCount(parts: seq<ROPart>, n: string)
    ensures |WithoutPart(parts, n)| + Matches(parts, n) == |parts|
    decreases |parts|
  {
    if |parts| > 0 {
      WithoutPartCount(parts[1..], n);
    }
  }

  /** With no matching part the list is unchanged; removing twice is
      removing once. */
  lemma {:induction false} WithoutPartNoMatch(parts: seq<ROPart>, n: string)
    requires forall i :: 0 <= i < |parts| ==> parts[i].partNumber != Some(n)
    ensures WithoutPart(parts, n) == parts
    decreases |parts|
  {
    if |parts| > 0 {
      WithoutPartNoMatch(parts[1..], n);
      assert parts == [parts[0]] + parts[1..];
    }
  }

  lemma WithoutPartIdempotent(parts: seq<ROPart>, n: string)
    ensures WithoutPart(WithoutPart(parts, n), n) == WithoutPart(parts, n)
  {
    var r := WithoutPart(parts, n);
    forall i | 0 <= i < |r| ensures r[i].partNumber != Some(n) {
      assert r[i] in r;
    }
    WithoutPartNoMatch(r, n);
  }

  /** Some part has a null part number, on which `equals` throws. */
  predicate HasNullPartNumber(parts: seq<ROPart>) {
    exists i :: 0 <= i < |parts| && parts[i].partNumber.None?
  }

  class RepairOrder {
    var id: Option<int>
    var roNumber: Option<string>
    var status: Option<ROStatus>
    var createdAt: Option<Instant>
    var updatedAt: Option<Instant>
    var vehicleDetails: Option<VehicleDetails>
    var jobDetails: Option<JobDetails>
    var technicianDetails: Option<TechnicianDetails>
    var parts: seq<ROPart>

    function Row(): RepairOrderRow
      reads this
    {
      RepairOrderRow(id, roNumber, status, createdAt, updatedAt, vehicleDetails, jobDetails,
                     technicianDetails, parts)
    }

    constructor ()
      ensures Row() == NewRepairOrder()
    {
      id, roNumber, status, createdAt, updatedAt := None, None, None, None, None;
      vehicleDetails, jobDetails, technicianDetails := None, None, None;
      parts := [];
    }

    constructor With(roNumber: Option<string>, status: Option<ROStatus>, vehicleDetails: Option<VehicleDetails>,
                     jobDetails: Option<JobDetails>, technicianDetails: Option<TechnicianDetails>)
      ensures Row() == NewRepairOrder().(roNumber := roNumber, status := status, vehicleDetails := vehicleDetails,
                                         jobDetails := jobDetails, technicianDetails := technicianDetails)
    {
      id, createdAt, updatedAt := None, None, None;
      this.roNumber, this.status := roNumber, status;
      this.vehicleDetails, this.jobDetails, this.technicianDetails := vehicleDetails, jobDetails, technicianDetails;
      parts := [];
    }

    constructor Load(r: RepairOrderRow)
      ensures Row() == r
    {
      id, roNumber, status, createdAt, updatedAt := r.id, r.roNumber, r.status, r.createdAt, r.updatedAt;
      vehicleDetails, jobDetails, technicianDetails := r.vehicleDetails, r.jobDetails, r.technicianDetails;
      parts := r.parts;
    }

    method SetRoNumber(v: Option<string>)
      modifies this
      ensures Row() == old(Row()).(roNumber := v)
    {
      roNumber := v;
    }

    method SetStatus(v: Option<ROStatus>)
      modifies this
      ensures Row() == old(Row()).(status := v)
    {
      status := v;
    }

    method SetCreatedAt(v: Option<Instant>)
      modifies this
      ensures Row() == old(Row()).(createdAt := v)
    {
      createdAt := v;
    }

    method SetUpdatedAt(v: Option<Instant>)
      modifies this
      ensures Row() == old(Row()).(updatedAt := v)
    {
      updatedAt := v;
    }

    method SetVehicleDetails(v: Option<VehicleDetails>)
      modifies this
      ensures Row() == old(Row()).(vehicleDetails := v)
    {
      vehicleDetails := v;
    }

    method SetJobDetails(v: Option<JobDetails>)
      modifies this
      ensures Row() == old(Row()).(jobDetails := v)
    {
      jobDetails := v;
    }

    method SetTechnicianDetails(v: Option<TechnicianDetails>)
      modifies this
      ensures Row() == old(Row()).(technicianDetails := v)
    {
      technicianDetails := v;
    }

    method SetParts(v: Option<seq<ROPart>>)
      modifies this
      ensures Row() == old(Row()).(parts := PartsOrEmpty(v))
    {
      parts := if v.Some? then v.value else [];
    }

    /** addPart appends at the end. */
    method AddPart(p: ROPart)
      modifies this
      ensures Row() == old(Row()).(parts := old(parts) + [p])
    {
      parts := parts + [p];
    }

    /** removePart; a part with a null part number makes the predicate throw
        before anything is removed. A null argument matches no part, since
        `equals(null)` is false, so the list stays as it was. */
    method RemovePart(n: Option<string>) returns (ok: bool)
      modifies this
      ensures ok <==> !HasNullPartNumber(old(parts))
      ensures ok && n.Some? ==> Row() == old(Row()).(parts := WithoutPart(old(parts), n.value))
      ensures ok && n.None? ==> Row() == old(Row())
      ensures !ok ==> Row() == old(Row())
    {
      if exists i :: 0 <= i < |parts| && parts[i].partNumber.None? {
        return false;
      }
      if n.Some? {
        parts := WithoutPart(parts, n.value);
      }
      ok := true;
    }
  }
}
