/** PartRepository: the JPQL filters and projections of the parts table, and
    the table itself with its String primary key and unique part number. A
    finder's result is the sub-map of the rows it returns; the order of a
    returned list is the database's and is not modelled, except for the two
    ORDER BY projections. */
module PartRepository {
  import opened Common
  import opened PartEntity

  /** The parts table, keyed by the String id column. */
  type PartTable = map<string, PartRow>

  datatype PartError =
    | PartNotFound(message: string)
    | IllegalArgument(message: string)
    | NullPointer
    | ArithmeticOverflow
    | IdentifierMissing
    | UniqueViolation(column: string)

  function FindByPartNumber(t: PartTable, pn: string): (r: PartTable)
    ensures forall k :: k in r <==> k in t && t[k].partNumber == Some(pn)
    ensures forall k :: k in r ==> r[k] == t[k]
  {
    map k | k in t && t[k].partNumber == Some(pn) :: t[k]
  }

  function FindByCategory(t: PartTable, c: string): (r: PartTable)
    ensures forall k :: k in r <==> k in t && t[k].category == Some(c)
    ensures forall k :: k in r ==> r[k] == t[k]
  {
    map k | k in t && t[k].category == Some(c) :: t[k]
  }

  function FindByBrand(t: PartTable, b: string): (r: PartTable)
    ensures forall k :: k in r <==> k in t && t[k].brand == Some(b)
    ensures forall k :: k in r ==> r[k] == t[k]
  {
    map k | k in t && t[k].brand == Some(b) :: t[k]
  }

  /** `LIKE %term%` on a nullable column: null never matches. */
  predicate LikeContains(col: Option<string>, term: string) {
    col.Some? && Contains(col.value, term)
  }

  /** The WHERE clause of searchByTerm. */
  predicate MatchesTerm(p: PartRow, term: string) {
    LikeContains(p.name, term) || LikeContains(p.description, term) || LikeContains(p.partNumber, term)
  }

  /** searchByTerm: the term occurs in the name, the description or the part number. */
  function SearchByTerm(t: PartTable, term: string): (r: PartTable)
    ensures forall k :: k in r <==> k in t && MatchesTerm(t[k], term)
    ensures forall k :: k in r ==> r[k] == t[k]
  {
    map k | k in t && MatchesTerm(t[k], term) :: t[k]
  }

  /** findByPriceRange: `BETWEEN` includes both bounds. */
  function FindByPriceRange(t: PartTable, lo: real, hi: real): (r: PartTable)
    ensures forall k :: k in r <==> k in t && t[k].price.Some? && lo <= t[k].price.value <= hi
    ensures forall k :: k in r ==> r[k] == t[k]
  {
    map k | k in t && t[k].price.Some? && lo <= t[k].price.value <= hi :: t[k]
  }

  function FindLowStockParts(t: PartTable, threshold: int): (r: PartTable)
    ensures forall k :: k in r <==> k in t && t[k].quantityInStock.Some? && t[k].quantityInStock.value <= threshold
    ensures forall k :: k in r ==> r[k] == t[k]
  {
    map k | k in t && t[k].quantityInStock.Some? && t[k].quantityInStock.value <= threshold :: t[k]
  }

  function FindOutOfStockParts(t: PartTable): (r: PartTable)
    ensures forall k :: k in r <==> k in t && t[k].quantityInStock == Some(0)
    ensures forall k :: k in r ==> r[k] == t[k]
  {
    map k | k in t && t[k].quantityInStock == Some(0) :: t[k]
  }

  function FindByCompatibleVehicle(t: PartTable, vehicle: string): (r: PartTable)
    ensures forall k :: k in r <==> k in t && LikeContains(t[k].compatibleVehicles, vehicle)
    ensures forall k :: k in r ==> r[k] == t[k]
  {
    map k | k in t && LikeContains(t[k].compatibleVehicles, vehicle) :: t[k]
  }

  function FindByOemStatus(t: PartTable, isOem: bool): (r: PartTable)
    ensures forall k :: k in r <==> k in t && t[k].isOem == Some(isOem)
    ensures forall k :: k in r ==> r[k] == t[k]
  {
    map k | k in t && t[k].isOem == Some(isOem) :: t[k]
  }

  /** The non-null categories and brands present in the table. */
  ghost function Categories(t: PartTable): set<string> {
    set k | k in t && t[k].category.Some? :: t[k].category.value
  }

  ghost function Brands(t: PartTable): set<string> {
    set k | k in t && t[k].brand.Some? :: t[k].brand.value
  }

  /** findDistinctCategories: each present category once, in ascending order. */
  ghost function FindDistinctCategories(t: PartTable): (r: seq<string>)
    ensures forall c :: c in r <==> c in Categories(t)
    ensures StrictlyAscending(r) && |r| == |Categories(t)|
  {
    SortedDistinct(Categories(t))
  }

  ghost function FindDistinctBrands(t: PartTable): (r: seq<string>)
    ensures forall b :: b in r <==> b in Brands(t)
    ensures StrictlyAscending(r) && |r| == |Brands(t)|
  {
    SortedDistinct(Brands(t))
  }

  /** A category is listed exactly when some part has it. */
  lemma CategoryListedIffPresent(t: PartTable, c: string)
    ensures c in FindDistinctCategories(t) <==> exists k :: k in t && t[k].category == Some(c)
  {
    if exists k :: k in t && t[k].category == Some(c) {
      var k :| k in t && t[k].category == Some(c);
      assert t[k].category.value in Categories(t);
    }
  }

  lemma BrandListedIffPresent(t: PartTable, b: string)
    ensures b in FindDistinctBrands(t) <==> exists k :: k in t && t[k].brand == Some(b)
  {
    if exists k :: k in t && t[k].brand == Some(b) {
      var k :| k in t && t[k].brand == Some(b);
      assert t[k].brand.value in Brands(t);
    }
  }

  /** Every out-of-stock part is a low-stock part for any threshold of 0 or
      more; with no negative stock, threshold 0 selects exactly them. */
  lemma OutOfStockIsLowStock(t: PartTable, threshold: int)
    requires threshold >= 0
    ensures FindOutOfStockParts(t).Keys <= FindLowStockParts(t, threshold).Keys
    ensures (forall k :: k in t && t[k].quantityInStock.Some? ==> t[k].quantityInStock.value >= 0) ==>
      FindLowStockParts(t, 0) == FindOutOfStockParts(t)
  {
  }

  /** Both bounds of the price range are included. */
  lemma PriceRangeInclusive(t: PartTable, k: string, lo: real, hi: real)
    requires k in t && lo <= hi
    requires t[k].price == Some(lo) || t[k].price == Some(hi)
    ensures k in FindByPriceRange(t, lo, hi)
  {
  }

  /** A part whose name, description or part number is the term itself is found. */
  lemma SearchFindsExactMatch(t: PartTable, k: string, term: string)
    requires k in t
    requires t[k].name == Some(term) || t[k].description == Some(term) || t[k].partNumber == Some(term)
    ensures k in SearchByTerm(t, term)
  {
    OccursContains(term, term, 0);
  }

  /** getOemParts and getAftermarketParts never share a part. */
  lemma OemAndAftermarketDisjoint(t: PartTable)
    ensures FindByOemStatus(t, true).Keys !! FindByOemStatus(t, false).Keys
  {
  }

  /** The unique constraint on part_number; SQL lets several NULLs through. */
  predicate UniquePartNumbers(t: PartTable) {
    forall a, b :: a in t && b in t && t[a].partNumber.Some? && t[a].partNumber == t[b].partNumber ==> a == b
  }

  lemma PartNumberFindsAtMostOne(t: PartTable, pn: string)
    requires UniquePartNumbers(t)
    ensures |FindByPartNumber(t, pn).Keys| <= 1
  {
    var ks := FindByPartNumber(t, pn).Keys;
    if ks != {} {
      var a :| a in ks;
      forall b | b in ks ensures b == a {
        assert t[a].partNumber == t[b].partNumber;
      }
      assert ks == {a};
    }
  }

  /** Another row than `id` already holds this part number. */
  predicate PartNumberTakenElsewhere(t: PartTable, pn: Option<string>, id: string) {
    pn.Some? && exists k :: k in t && k != id && t[k].partNumber == pn
  }

  /** A stored part: its key is its id. */
  predicate StoredPart(p: PartRow, k: string) {
    p.id == Some(k)
  }

  class PartStore {
    var parts: PartTable

    predicate Valid()
      reads this
    {
      && (forall k :: k in parts ==> StoredPart(parts[k], k))
      && UniquePartNumbers(parts)
    }

    constructor ()
      ensures Valid() && parts == map[]
    {
      parts := map[];
    }

    /** save(): the id is assigned by the caller, so a null id cannot be
        saved; an existing id is an update (merge, then @PreUpdate), a new one
        an insert; a part number held by another row violates the unique
        constraint and changes nothing. */
    method Save(e: Part, now: Instant) returns (r: Result<PartRow, PartError>)
      requires Valid()
      modifies this, e
      ensures Valid()
      ensures old(e.id).None? ==> r == Failure(IdentifierMissing) && parts == old(parts)
      ensures old(e.id).Some? && PartNumberTakenElsewhere(old(parts), old(e.partNumber), old(e.id).value) ==>
        r == Failure(UniqueViolation("part_number")) && parts == old(parts)
      ensures old(e.id).Some? && !PartNumberTakenElsewhere(old(parts), old(e.partNumber), old(e.id).value) ==>
        var k := old(e.id).value;
        var row := if k in old(parts) then PreUpdated(old(e.Row()), now) else old(e.Row());
        r == Success(row) && parts == old(parts)[k := row]
    {
      if e.id.None? {
        return Failure(IdentifierMissing);
      }
      var k := e.id.value;
      if e.partNumber.Some? && exists j :: j in parts && j != k && parts[j].partNumber == e.partNumber {
        return Failure(UniqueViolation("part_number"));
      }
      if k in parts {
        e.PreUpdate(now);
      }
      var row := e.Row();
      parts := parts[k := row];
      r := Success(row);
    }

    method Delete(k: string)
      requires Valid()
      modifies this
      ensures Valid()
      ensures parts == old(parts) - {k}
    {
      parts := parts - {k};
    }
  }
}
