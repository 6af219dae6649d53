/** The part service's Part entity: its field defaults, its constructors, the
    @PreUpdate hook and the constraints its fields declare. */
module PartEntity {
  import opened Common

  /** Every column of the parts table; None is Java's null. */
  datatype PartRow = PartRow(
    id: Option<string>,
    partNumber: Option<string>,
    name: Option<string>,
    description: Option<string>,
    category: Option<string>,
    brand: Option<string>,
    price: Option<real>,
    quantityInStock: Option<int>,
    location: Option<string>,
    weightKg: Option<real>,
    dimensions: Option<string>,
    compatibleVehicles: Option<string>,
    supplier: Option<string>,
    supplierPartNumber: Option<string>,
    warrantyMonths: Option<int>,
    isOem: Option<bool>,
    createdAt: Option<Instant>,
    updatedAt: Option<Instant>)

  /** `new Part()`: the two field initializers, and createdAt stamped. */
  function NewPart(now: Instant): (p: PartRow)
    ensures p.quantityInStock == Some(0) && p.isOem == Some(false)
    ensures p.createdAt == Some(now) && p.updatedAt.None? && p.id.None?
    ensures p.partNumber.None? && p.name.None? && p.category.None? && p.brand.None? && p.price.None?
  {
    PartRow(None, None, None, None, None, None, None, Some(0), None, None, None, None,
            None, None, None, Some(false), Some(now), None)
  }

  /** The five-argument constructor: `this()` and then the five fields. */
  function NewPartWith(partNumber: Option<string>, name: Option<string>, category: Option<string>,
                       brand: Option<string>, price: Option<real>, now: Instant): (p: PartRow)
    ensures p.partNumber == partNumber && p.name == name && p.category == category
    ensures p.brand == brand && p.price == price
    ensures p == NewPart(now).(partNumber := partNumber, name := name, category := category,
                              brand := brand, price := price)
  {
    NewPart(now).(partNumber := partNumber, name := name, category := category,
                  brand := brand, price := price)
  }

  /** @PreUpdate stamps updatedAt and nothing else. */
  function PreUpdated(p: PartRow, now: Instant): (r: PartRow)
    ensures r.updatedAt == Some(now)
    ensures r == p.(updatedAt := Some(now))
  {
    p.(updatedAt := Some(now))
  }

  /** The Bean Validation constraints of the entity. As in Bean Validation,
      a null quantity passes @Min. */
  predicate SatisfiesConstraints(p: PartRow) {
    && NotBlank(p.partNumber) && NotBlank(p.name)
    && NotBlank(p.category) && NotBlank(p.brand)
    && p.price.Some? && p.price.value >= 0.01
    && (p.quantityInStock.Some? ==> p.quantityInStock.value >= 0)
  }

  /** The messages of the violated constraints. */
  function PartViolations(p: PartRow): (v: set<string>)
    ensures v == {} <==> SatisfiesConstraints(p)
    ensures !NotBlank(p.partNumber) <==> "Part number is required" in v
    ensures (p.quantityInStock.Some? && p.quantityInStock.value < 0)
        <==> "Quantity in stock cannot be negative" in v
  {
    var names := NameViolations(p);
    var price := if p.price.None? then {"Price is required"}
                 else if p.price.value < 0.01 then {"Price must be greater than 0"} else {};
    var stock := if p.quantityInStock.Some? && p.quantityInStock.value < 0
                 then {"Quantity in stock cannot be negative"} else {};
    assert "Part number is required" !in price + stock;
    assert "Quantity in stock cannot be negative" !in names + price;
    names + price + stock
  }

  /** The four @NotBlank text fields of a part. */
  function NameViolations(p: PartRow): (v: set<string>)
    ensures v <= {"Part number is required", "Name is required", "Category is required", "Brand is required"}
    ensures v == {} <==> NotBlank(p.partNumber) && NotBlank(p.name) && NotBlank(p.category) && NotBlank(p.brand)
    ensures !NotBlank(p.partNumber) <==> "Part number is required" in v
  {
    (if !NotBlank(p.partNumber) then {"Part number is required"} else {})
    + (if !NotBlank(p.name) then {"Name is required"} else {})
    + (if !NotBlank(p.category) then {"Category is required"} else {})
    + (if !NotBlank(p.brand) then {"Brand is required"} else {})
  }

  /** A part built with non-blank names and a positive price is valid: the
      default stock of zero passes @Min(0). */
  lemma ConstructedPartValid(partNumber: string, name: string, category: string, brand: string,
                             price: real, now: Instant)
    requires NotBlank(Some(partNumber)) && NotBlank(Some(name))
    requires NotBlank(Some(category)) && NotBlank(Some(brand)) && price >= 0.01
    ensures SatisfiesConstraints(NewPartWith(Some(partNumber), Some(name), Some(category),
                                             Some(brand), Some(price), now))
  {
  }

  class Part {
    var id: Option<string>
    var partNumber: Option<string>
    var name: Option<string>
    var description: Option<string>
    var category: Option<string>
    var brand: Option<string>
    var price: Option<real>
    var quantityInStock: Option<int>
    var location: Option<string>
    var weightKg: Option<real>
    var dimensions: Option<string>
    var compatibleVehicles: Option<string>
    var supplier: Option<string>
    var supplierPartNumber: Option<string>
    var warrantyMonths: Option<int>
    var isOem: Option<bool>
    var createdAt: Option<Instant>
    var updatedAt: Option<Instant>

    function Row(): PartRow
      reads this
    {
      PartRow(id, partNumber, name, description, category, brand, price, quantityInStock,
              location, weightKg, dimensions, compatibleVehicles, supplier, supplierPartNumber,
              warrantyMonths, isOem, createdAt, updatedAt)
    }

    constructor (now: Instant)
      ensures Row() == NewPart(now)
    {
      id, partNumber, name, description, category, brand, price := None, None, None, None, None, None, None;
      quantityInStock := Some(0);
      location, weightKg, dimensions, compatibleVehicles := None, None, None, None;
      supplier, supplierPartNumber, warrantyMonths := None, None, None;
      isOem := Some(false);
      createdAt := Some(now);
      updatedAt := None;
    }

    constructor With(partNumber: Option<string>, name: Option<string>, category: Option<string>,
                     brand: Option<string>, price: Option<real>, now: Instant)
      ensures Row() == NewPartWith(partNumber, name, category, brand, price, now)
    {
      id, description := None, None;
      this.partNumber, this.name, this.category, this.brand, this.price := partNumber, name, category, brand, price;
      quantityInStock := Some(0);
      location, weightKg, dimensions, compatibleVehicles := None, None, None, None;
      supplier, supplierPartNumber, warrantyMonths := None, None, None;
      isOem := Some(false);
      createdAt := Some(now);
      updatedAt := None;
    }

    /** The entity as the repository materialises it from a stored row. */
    constructor Load(r: PartRow)
      ensures Row() == r
    {
      id, partNumber, name, description, category, brand := r.id, r.partNumber, r.name, r.description, r.category, r.brand;
      price, quantityInStock, location, weightKg := r.price, r.quantityInStock, r.location, r.weightKg;
      dimensions, compatibleVehicles, supplier := r.dimensions, r.compatibleVehicles, r.supplier;
      supplierPartNumber, warrantyMonths, isOem := r.supplierPartNumber, r.warrantyMonths, r.isOem;
      createdAt, updatedAt := r.createdAt, r.updatedAt;
    }

    method PreUpdate(now: Instant)
      modifies this
      ensures Row() == PreUpdated(old(Row()), now)
    {
      updatedAt := Some(now);
    }

    method SetPartNumber(v: Option<string>)
      modifies this
      ensures Row() == old(Row()).(partNumber := v)
    {
      partNumber := v;
    }

    method SetName(v: Option<string>)
      modifies this
      ensures Row() == old(Row()).(name := v)
    {
      name := v;
    }

    method SetDescription(v: Option<string>)
      modifies this
      ensures Row() == old(Row()).(description := v)
    {
      description := v;
    }

    method SetCategory(v: Option<string>)
      modifies this
      ensures Row() == old(Row()).(category := v)
    {
      category := v;
    }

    method SetBrand(v: Option<string>)
      modifies this
      ensures Row() == old(Row()).(brand := v)
    {
      brand := v;
    }

    method SetPrice(v: Option<real>)
      modifies this
      ensures Row() == old(Row()).(price := v)
    {
      price := v;
    }

    method SetQuantityInStock(v: Option<int>)
      modifies this
      ensures Row() == old(Row()).(quantityInStock := v)
    {
      quantityInStock := v;
    }

    method SetLocation(v: Option<string>)
      modifies this
      ensures Row() == old(Row()).(location := v)
    {
      location := v;
    }

    method SetWeightKg(v: Option<real>)
      modifies this
      ensures Row() == old(Row()).(weightKg := v)
    {
      weightKg := v;
    }

    method SetDimensions(v: Option<string>)
      modifies this
      ensures Row() == old(Row()).(dimensions := v)
    {
      dimensions := v;
    }

    method SetCompatibleVehicles(v: Option<string>)
      modifies this
      ensures Row() == old(Row()).(compatibleVehicles := v)
    {
      compatibleVehicles := v;
    }

    method SetSupplier(v: Option<string>)
      modifies this
      ensures Row() == old(Row()).(supplier := v)
    {
      supplier := v;
    }

    method SetSupplierPartNumber(v: Option<string>)
      modifies this
      ensures Row() == old(Row()).(supplierPartNumber := v)
    {
      supplierPartNumber := v;
    }

    method SetWarrantyMonths(v: Option<int>)
      modifies this
      ensures Row() == old(Row()).(warrantyMonths := v)
    {
      warrantyMonths := v;
    }

    method SetIsOem(v: Option<bool>)
      modifies this
      ensures Row() == old(Row()).(isOem := v)
    {
      isOem := v;
    }
  }
}
