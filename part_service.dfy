/** PartService: lookups that throw PartNotFoundException, the full update of
    a part, deletion, and the three inventory operations. Each service method
    runs its own save, so @PreUpdate has stamped the row it returns. */
module PartService {
  import opened Common
  import opened PartEntity
  import opened PartRepository

  function NotFoundById(id: string): PartError {
    PartNotFound("Part not found with id: " + id)
  }

  function NotFoundByPartNumber(pn: string): PartError {
    PartNotFound("Part not found with part number: " + pn)
  }

  const NegativeStock: PartError := IllegalArgument("Stock quantity cannot be negative")

  method GetPartById(db: PartStore, id: string) returns (r: Result<PartRow, PartError>)
    ensures id in db.parts ==> r == Success(db.parts[id])
    ensures id !in db.parts ==> r == Failure(NotFoundById(id))
  {
    if id in db.parts {
      r := Success(db.parts[id]);
    } else {
      r := Failure(NotFoundById(id));
    }
  }

  /** getPartByPartNumber: the unique row with that part number. */
  method GetPartByPartNumber(db: PartStore, pn: string) returns (r: Result<PartRow, PartError>)
    requires db.Valid()
    ensures r.Success? <==> FindByPartNumber(db.parts, pn) != map[]
    ensures r.Success? ==> FindByPartNumber(db.parts, pn).Values == {r.value}
    ensures r.Failure? ==> r.error == NotFoundByPartNumber(pn)
  {
    if !exists k :: k in db.parts && db.parts[k].partNumber == Some(pn) {
      assert FindByPartNumber(db.parts, pn) == map[];
      return Failure(NotFoundByPartNumber(pn));
    }
    var k :| k in db.parts && db.parts[k].partNumber == Some(pn);
    var found := FindByPartNumber(db.parts, pn);
    forall j | j in found ensures j == k {
      assert db.parts[j].partNumber == db.parts[k].partNumber;
    }
    assert found.Keys == {k};
    r := Success(db.parts[k]);
  }

  /** createPart is a plain save of the request's part. */
  method CreatePart(db: PartStore, e: Part, now: Instant) returns (r: Result<PartRow, PartError>)
    requires db.Valid()
    modifies db, e
    ensures db.Valid()
    ensures old(e.id).None? ==> r == Failure(IdentifierMissing) && db.parts == old(db.parts)
    ensures old(e.id).Some? && PartNumberTakenElsewhere(old(db.parts), old(e.partNumber), old(e.id).value) ==>
      r == Failure(UniqueViolation("part_number")) && db.parts == old(db.parts)
    ensures old(e.id).Some? && !PartNumberTakenElsewhere(old(db.parts), old(e.partNumber), old(e.id).value) ==>
      var k := old(e.id).value;
      var row := if k in old(db.parts) then PreUpdated(old(e.Row()), now) else old(e.Row());
      r == Success(row) && db.parts == old(db.parts)[k := row]
  {
    r := db.Save(e, now);
  }

  /** What updatePart writes: the fifteen business fields of the details,
      with the stored part's id and timestamps. */
  function CopyDetails(p: PartRow, d: PartRow): (r: PartRow)
    ensures r.id == p.id && r.createdAt == p.createdAt && r.updatedAt == p.updatedAt
    ensures r == d.(id := p.id, createdAt := p.createdAt, updatedAt := p.updatedAt)
  {
    PartRow(p.id, d.partNumber, d.name, d.description, d.category, d.brand, d.price,
            d.quantityInStock, d.location, d.weightKg, d.dimensions, d.compatibleVehicles,
            d.supplier, d.supplierPartNumber, d.warrantyMonths, d.isOem, p.createdAt, p.updatedAt)
  }

  /** Copying a part's own details changes nothing, and a second copy of the
      same details changes nothing more. */
  lemma CopyDetailsIdempotent(p: PartRow, d: PartRow)
    ensures CopyDetails(p, p) == p
    ensures CopyDetails(CopyDetails(p, d), d) == CopyDetails(p, d)
  {
  }

  /** The details decide every business field, whatever the stored part held. */
  lemma CopyDetailsIgnoresOldFields(p: PartRow, q: PartRow, d: PartRow)
    requires p.id == q.id && p.createdAt == q.createdAt && p.updatedAt == q.updatedAt
    ensures CopyDetails(p, d) == CopyDetails(q, d)
  {
  }

  /** updatePart: load, copy the fifteen fields, save. */
  method UpdatePart(db: PartStore, id: string, d: PartRow, now: Instant) returns (r: Result<PartRow, PartError>)
    requires db.Valid()
    modifies db
    ensures db.Valid()
    ensures id !in old(db.parts) ==> r == Failure(NotFoundById(id)) && db.parts == old(db.parts)
    ensures id in old(db.parts) && PartNumberTakenElsewhere(old(db.parts), d.partNumber, id) ==>
      r == Failure(UniqueViolation("part_number")) && db.parts == old(db.parts)
    ensures id in old(db.parts) && !PartNumberTakenElsewhere(old(db.parts), d.partNumber, id) ==>
      var row := PreUpdated(CopyDetails(old(db.parts)[id], d), now);
      r == Success(row) && db.parts == old(db.parts)[id := row]
  {
    if id !in db.parts {
      return Failure(NotFoundById(id));
    }
    var part := new Part.Load(db.parts[id]);
    part.SetPartNumber(d.partNumber);
    part.SetName(d.name);
    part.SetDescription(d.description);
    part.SetCategory(d.category);
    part.SetBrand(d.brand);
    part.SetPrice(d.price);
    part.SetQuantityInStock(d.quantityInStock);
    part.SetLocation(d.location);
    part.SetWeightKg(d.weightKg);
    part.SetDimensions(d.dimensions);
    part.SetCompatibleVehicles(d.compatibleVehicles);
    part.SetSupplier(d.supplier);
    part.SetSupplierPartNumber(d.supplierPartNumber);
    part.SetWarrantyMonths(d.warrantyMonths);
    part.SetIsOem(d.isOem);
    assert part.Row() == CopyDetails(old(db.parts)[id], d);
    r := db.Save(part, now);
  }

  method DeletePart(db: PartStore, id: string) returns (r: Result<(), PartError>)
    requires db.Valid()
    modifies db
    ensures db.Valid()
    ensures id !in old(db.parts) ==> r == Failure(NotFoundById(id)) && db.parts == old(db.parts)
    ensures id in old(db.parts) ==> r == Success(()) && db.parts == old(db.parts) - {id}
  {
    if id !in db.parts {
      return Failure(NotFoundById(id));
    }
    db.Delete(id);
    r := Success(());
  }

  /** A stored part keeps its part number when only its stock changes, so the
      save cannot hit the unique constraint. */
  lemma SamePartNumberNotTaken(t: PartTable, id: string)
    requires UniquePartNumbers(t) && id in t
    ensures !PartNumberTakenElsewhere(t, t[id].partNumber, id)
  {
  }

  /** updateStock: the new quantity is stored as given, with no sign check. */
  method UpdateStock(db: PartStore, id: string, q: Option<int>, now: Instant) returns (r: Result<PartRow, PartError>)
    requires db.Valid()
    modifies db
    ensures db.Valid()
    ensures id !in old(db.parts) ==> r == Failure(NotFoundById(id)) && db.parts == old(db.parts)
    ensures id in old(db.parts) ==>
      var row := PreUpdated(old(db.parts)[id].(quantityInStock := q), now);
      r == Success(row) && db.parts == old(db.parts)[id := row]
  {
    if id !in db.parts {
      return Failure(NotFoundById(id));
    }
    var part := new Part.Load(db.parts[id]);
    part.SetQuantityInStock(q);
    SamePartNumberNotTaken(db.parts, id);
    r := db.Save(part, now);
  }

  /** The new stock adjustStock computes, as written: Java `int` addition,
      which wraps around, then the sign check. */
  function AdjustedAsWritten(q: int, adj: int): (r: Result<int, PartError>)
    requires IsJavaInt(q) && IsJavaInt(adj)
    ensures r.Success? <==> WrapInt(q + adj) >= 0
    ensures r.Success? ==> r.value == WrapInt(q + adj)
    ensures r.Failure? ==> r.error == NegativeStock
  {
    var n := WrapInt(q + adj);
    if n < 0 then Failure(NegativeStock) else Success(n)
  }

  /** As written, one unit more than the largest stock is reported as a
      negative stock. The second case needs a stored stock that is already
      negative, which the @Min(0) check at flush keeps out of the table: a huge
      negative adjustment of such a stock raises it. */
  lemma AdjustWrapsAround()
    ensures AdjustedAsWritten(IntMax, 1) == Failure(NegativeStock)
    ensures AdjustedAsWritten(-10, IntMin) == Success(IntMax - 9)
  {
  }

  /** The evidently intended adjustment: the exact sum, rejected when it is
      negative or beyond the `Integer` column, as `Math.addExact` would. */
  function Adjusted(q: int, adj: int): (r: Result<int, PartError>)
    ensures r.Success? <==> 0 <= q + adj <= IntMax
    ensures r.Success? ==> r.value == q + adj
    ensures IntMin <= q + adj < 0 ==> r == Failure(NegativeStock)
  {
    var n := q + adj;
    if n > IntMax || n < IntMin then Failure(ArithmeticOverflow)
    else if n < 0 then Failure(NegativeStock)
    else Success(n)
  }

  /** With the exact sum a negative adjustment never raises the stock, and
      within the int range the intended and written versions agree. */
  lemma {:induction false} AdjustedIsMonotone(q: int, adj: int)
    ensures Adjusted(q, adj).Success? && adj < 0 ==> Adjusted(q, adj).value < q
    ensures Adjusted(q, adj).Success? && adj >= 0 ==> Adjusted(q, adj).value >= q
    ensures IsJavaInt(q) && IsJavaInt(adj) && IsJavaInt(q + adj) ==> Adjusted(q, adj) == AdjustedAsWritten(q, adj)
  {
    if IsJavaInt(q) && IsJavaInt(adj) && IsJavaInt(q + adj) {
      assert WrapInt(q + adj) == q + adj;
    }
  }

  /** adjustStock: a null stock or adjustment fails on unboxing; a negative
      sum throws and nothing is written. */
  method AdjustStock(db: PartStore, id: string, adj: Option<int>, now: Instant) returns (r: Result<PartRow, PartError>)
    requires db.Valid()
    modifies db
    ensures db.Valid()
    ensures id !in old(db.parts) ==> r == Failure(NotFoundById(id)) && db.parts == old(db.parts)
    ensures id in old(db.parts) && (old(db.parts)[id].quantityInStock.None? || adj.None?) ==>
      r == Failure(NullPointer) && db.parts == old(db.parts)
    ensures id in old(db.parts) && old(db.parts)[id].quantityInStock.Some? && adj.Some? ==>
      var a := Adjusted(old(db.parts)[id].quantityInStock.value, adj.value);
      && (a.Failure? ==> r == Failure(a.error) && db.parts == old(db.parts))
      && (a.Success? ==>
            var row := PreUpdated(old(db.parts)[id].(quantityInStock := Some(a.value)), now);
            r == Success(row) && db.parts == old(db.parts)[id := row])
  {
    if id !in db.parts {
      return Failure(NotFoundById(id));
    }
    var part := new Part.Load(db.parts[id]);
    if part.quantityInStock.None? || adj.None? {
      return Failure(NullPointer);
    }
    var a := Adjusted(part.quantityInStock.value, adj.value);
    if a.Failure? {
      return Failure(a.error);
    }
    part.SetQuantityInStock(Some(a.value));
    SamePartNumberNotTaken(db.parts, id);
    r := db.Save(part, now);
  }

  /** A successful adjustment leaves a stock of old + adjustment, never
      negative, and changes no other business field. */
  lemma AdjustKeepsOtherFields(p: PartRow, adj: int, now: Instant)
    requires p.quantityInStock.Some? && Adjusted(p.quantityInStock.value, adj).Success?
    ensures var row := PreUpdated(p.(quantityInStock := Some(Adjusted(p.quantityInStock.value, adj).value)), now);
      && row.quantityInStock.value == p.quantityInStock.value + adj >= 0
      && CopyDetails(p, row) == CopyDetails(p, p).(quantityInStock := row.quantityInStock)
  {
  }

  /** checkAvailability: stock >= required, read-only. */
  method CheckAvailability(db: PartStore, id: string, required: Option<int>) returns (r: Result<bool, PartError>)
    ensures id !in db.parts ==> r == Failure(NotFoundById(id))
    ensures id in db.parts && (db.parts[id].quantityInStock.None? || required.None?) ==> r == Failure(NullPointer)
    ensures id in db.parts && db.parts[id].quantityInStock.Some? && required.Some? ==>
      r == Success(db.parts[id].quantityInStock.value >= required.value)
  {
    if id !in db.parts {
      return Failure(NotFoundById(id));
    }
    var q := db.parts[id].quantityInStock;
    if q.None? || required.None? {
      return Failure(NullPointer);
    }
    r := Success(q.value >= required.value);
  }
}
