/** The two JPA repositories of the payment service. A table is a map from the
    generated primary key to the stored row; every finder is a filter of that
    map, and a store object holds both tables with their id counters. */
module PaymentRepository {
  import opened Common
  import opened TransactionEntity
  import opened PaymentLinkEntity

  type TransactionTable = map<int, TransactionRow>
  type LinkTable = map<int, PaymentLinkRow>

  /** The exceptions the payment services throw, and the unique-constraint
      violation the database raises on insert. */
  datatype PaymentError =
    | TransactionNotFound(message: string)
    | PaymentLinkNotFound(message: string)
    | IllegalArgument(message: string)
    | UniqueViolation(column: string)

  // ---------------------------------------------------------------------
  // TransactionRepository

  function FindByCustomerEmail(t: TransactionTable, email: string): (r: TransactionTable)
    ensures forall k :: k in r <==> k in t && t[k].customerEmail == Some(email)
    ensures forall k :: k in r ==> r[k] == t[k]
  {
    map k | k in t && t[k].customerEmail == Some(email) :: t[k]
  }

  function FindByCardType(t: TransactionTable, c: CardType): (r: TransactionTable)
    ensures forall k :: k in r <==> k in t && t[k].cardType == Some(c)
    ensures forall k :: k in r ==> r[k] == t[k]
  {
    map k | k in t && t[k].cardType == Some(c) :: t[k]
  }

  function FindByPaymentType(t: TransactionTable, p: PaymentType): (r: TransactionTable)
    ensures forall k :: k in r <==> k in t && t[k].paymentType == Some(p)
    ensures forall k :: k in r ==> r[k] == t[k]
  {
    map k | k in t && t[k].paymentType == Some(p) :: t[k]
  }

  function FindByInvoiceId(t: TransactionTable, invoiceId: string): (r: TransactionTable)
    ensures forall k :: k in r <==> k in t && t[k].invoiceId == Some(invoiceId)
    ensures forall k :: k in r ==> r[k] == t[k]
  {
    map k | k in t && t[k].invoiceId == Some(invoiceId) :: t[k]
  }

  function FindByInvoiceNumber(t: TransactionTable, invoiceNumber: string): (r: TransactionTable)
    ensures forall k :: k in r <==> k in t && t[k].invoiceNumber == Some(invoiceNumber)
    ensures forall k :: k in r ==> r[k] == t[k]
  {
    map k | k in t && t[k].invoiceNumber == Some(invoiceNumber) :: t[k]
  }

  function FindByStatus(t: TransactionTable, s: TransactionStatus): (r: TransactionTable)
    ensures forall k :: k in r <==> k in t && t[k].status == s
    ensures forall k :: k in r ==> r[k] == t[k]
  {
    map k | k in t && t[k].status == s :: t[k]
  }

  function FindByTransactionReference(t: TransactionTable, ref: string): (r: TransactionTable)
    ensures forall k :: k in r <==> k in t && t[k].transactionReference == Some(ref)
    ensures forall k :: k in r ==> r[k] == t[k]
  {
    map k | k in t && t[k].transactionReference == Some(ref) :: t[k]
  }

  /** Spring Data's `Containing`: LIKE '%e%' on the stored address. */
  function FindByCustomerEmailContaining(t: TransactionTable, e: string): (r: TransactionTable)
    ensures forall k :: k in r <==> k in t && t[k].customerEmail.Some? && Contains(t[k].customerEmail.value, e)
    ensures forall k :: k in r ==> r[k] == t[k]
  {
    map k | k in t && t[k].customerEmail.Some? && Contains(t[k].customerEmail.value, e) :: t[k]
  }

  function FindByStatusAndCardType(t: TransactionTable, s: TransactionStatus, c: CardType): (r: TransactionTable)
    ensures forall k :: k in r <==> k in t && t[k].status == s && t[k].cardType == Some(c)
    ensures forall k :: k in r ==> r[k] == t[k]
  {
    map k | k in t && t[k].status == s && t[k].cardType == Some(c) :: t[k]
  }

  /** The JPQL query `customerEmail = :email AND status = :status`. */
  function FindTransactionsByCustomerEmailAndStatus(t: TransactionTable, email: string, s: TransactionStatus)
    : (r: TransactionTable)
    ensures forall k :: k in r <==> k in t && t[k].customerEmail == Some(email) && t[k].status == s
    ensures forall k :: k in r ==> r[k] == t[k]
  {
    map k | k in t && t[k].customerEmail == Some(email) && t[k].status == s :: t[k]
  }

  /** The JPQL query `amount >= :minAmount AND amount <= :maxAmount`. */
  function FindByAmountRange(t: TransactionTable, lo: real, hi: real): (r: TransactionTable)
    ensures forall k :: k in r ==> k in t && r[k] == t[k] && t[k].amount.Some?
    ensures forall k :: k in t && t[k].amount.Some? && lo <= t[k].amount.value <= hi ==> k in r
  {
    map k | k in t && t[k].amount.Some? && lo <= t[k].amount.value && t[k].amount.value <= hi :: t[k]
  }

  predicate ReferenceTaken(t: TransactionTable, ref: string) {
    exists k :: k in t && t[k].transactionReference == Some(ref)
  }

  /** The unique constraint on transaction_reference. */
  predicate UniqueReferences(t: TransactionTable) {
    forall a, b :: a in t && b in t && a != b
      ==> t[a].transactionReference != t[b].transactionReference
  }

  /** The JPQL conjunction is both derived filters applied one after the other,
      in either order. */
  lemma TransactionEmailAndStatusIsConjunction(t: TransactionTable, email: string, s: TransactionStatus)
    ensures FindTransactionsByCustomerEmailAndStatus(t, email, s) == FindByStatus(FindByCustomerEmail(t, email), s)
    ensures FindTransactionsByCustomerEmailAndStatus(t, email, s) == FindByCustomerEmail(FindByStatus(t, s), email)
  {
  }

  /** BETWEEN-style range: a row is found iff its amount lies in [lo, hi], so
      both bounds are included. */
  lemma AmountRangeInclusive(t: TransactionTable, lo: real, hi: real, k: int)
    requires k in t && t[k].amount.Some?
    ensures k in FindByAmountRange(t, lo, hi) <==> lo <= t[k].amount.value <= hi
    ensures lo <= hi && (t[k].amount.value == lo || t[k].amount.value == hi)
      ==> k in FindByAmountRange(t, lo, hi)
  {
  }

  /** An exact e-mail match is also a `Containing` match. */
  lemma ExactEmailIsContained(t: TransactionTable, email: string)
    ensures FindByCustomerEmail(t, email).Keys <= FindByCustomerEmailContaining(t, email).Keys
  {
    forall k | k in FindByCustomerEmail(t, email)
      ensures k in FindByCustomerEmailContaining(t, email)
    {
      OccursContains(email, email, 0);
    }
  }

  /** A set whose elements are all equal has at most one element. */
  lemma AtMostOne<K>(s: set<K>)
    requires forall a, b :: a in s && b in s ==> a == b
    ensures |s| <= 1
  {
    if s != {} {
      var x :| x in s;
      assert s == {x};
    }
  }

  /** With the unique constraint, the reference finder yields at most one row. */
  lemma ReferenceFindsAtMostOne(t: TransactionTable, ref: string)
    requires UniqueReferences(t)
    ensures |FindByTransactionReference(t, ref).Keys| <= 1
    ensures |FindByTransactionReference(t, ref).Keys| == 1 <==> ReferenceTaken(t, ref)
  {
    var r := FindByTransactionReference(t, ref);
    var ks := r.Keys;
    forall a, b | a in ks && b in ks ensures a == b {
      assert t[a].transactionReference == t[b].transactionReference;
    }
    AtMostOne(ks);
    if ReferenceTaken(t, ref) {
      var k :| k in t && t[k].transactionReference == Some(ref);
      assert k in r.Keys;
    } else {
      assert forall k :: k !in r;
    }
  }

  // ---------------------------------------------------------------------
  // PaymentLinkRepository

  function FindByLinkId(l: LinkTable, linkId: string): (r: LinkTable)
    ensures forall k :: k in r <==> k in l && l[k].linkId == Some(linkId)
    ensures forall k :: k in r ==> r[k] == l[k]
  {
    map k | k in l && l[k].linkId == Some(linkId) :: l[k]
  }

  function FindLinksByInvoiceId(l: LinkTable, invoiceId: string): (r: LinkTable)
    ensures forall k :: k in r <==> k in l && l[k].invoiceId == Some(invoiceId)
    ensures forall k :: k in r ==> r[k] == l[k]
  {
    map k | k in l && l[k].invoiceId == Some(invoiceId) :: l[k]
  }

  function FindLinksByInvoiceNumber(l: LinkTable, invoiceNumber: string): (r: LinkTable)
    ensures forall k :: k in r <==> k in l && l[k].invoiceNumber == Some(invoiceNumber)
    ensures forall k :: k in r ==> r[k] == l[k]
  {
    map k | k in l && l[k].invoiceNumber == Some(invoiceNumber) :: l[k]
  }

  function FindLinksByCustomerEmail(l: LinkTable, email: string): (r: LinkTable)
    ensures forall k :: k in r <==> k in l && l[k].customerEmail == Some(email)
    ensures forall k :: k in r ==> r[k] == l[k]
  {
    map k | k in l && l[k].customerEmail == Some(email) :: l[k]
  }

  function FindLinksByStatus(l: LinkTable, s: PaymentLinkStatus): (r: LinkTable)
    ensures forall k :: k in r <==> k in l && l[k].status == s
    ensures forall k :: k in r ==> r[k] == l[k]
  {
    map k | k in l && l[k].status == s :: l[k]
  }

  function FindLinksByTransactionId(l: LinkTable, transactionId: int): (r: LinkTable)
    ensures forall k :: k in r <==> k in l && l[k].transactionId == Some(transactionId)
    ensures forall k :: k in r ==> r[k] == l[k]
  {
    map k | k in l && l[k].transactionId == Some(transactionId) :: l[k]
  }

  /** A link the expiry query selects: expiry strictly before the given time. */
  predicate ExpiredAt(link: PaymentLinkRow, currentTime: Instant) {
    link.expiryDate.Some? && link.expiryDate.value < currentTime
  }

  /** The JPQL query `expiryDate < :currentTime AND status = :status`. */
  function FindExpiredLinks(l: LinkTable, currentTime: Instant, s: PaymentLinkStatus): (r: LinkTable)
    ensures forall k :: k in r ==> k in l && r[k] == l[k] && l[k].status == s
    ensures forall k :: k in l && l[k].status == s && ExpiredAt(l[k], currentTime) ==> k in r
  {
    map k | k in l && ExpiredAt(l[k], currentTime) && l[k].status == s :: l[k]
  }

  function FindLinksByCustomerEmailAndStatus(l: LinkTable, email: string, s: PaymentLinkStatus): (r: LinkTable)
    ensures forall k :: k in r <==> k in l && l[k].customerEmail == Some(email) && l[k].status == s
    ensures forall k :: k in r ==> r[k] == l[k]
  {
    map k | k in l && l[k].customerEmail == Some(email) && l[k].status == s :: l[k]
  }

  predicate LinkIdTaken(l: LinkTable, linkId: string) {
    exists k :: k in l && l[k].linkId == Some(linkId)
  }

  /** The unique constraint on link_id. */
  predicate UniqueLinkIds(l: LinkTable) {
    forall a, b :: a in l && b in l && a != b ==> l[a].linkId != l[b].linkId
  }

  /** The expiry query selects exactly the links with that status whose expiry
      lies strictly before the given time; one expiring at that very instant
      is not selected. */
  lemma ExpiredLinksExact(l: LinkTable, currentTime: Instant, s: PaymentLinkStatus, k: int)
    requires k in l
    ensures k in FindExpiredLinks(l, currentTime, s)
        <==> l[k].status == s && l[k].expiryDate.Some? && l[k].expiryDate.value < currentTime
    ensures l[k].expiryDate == Some(currentTime) ==> k !in FindExpiredLinks(l, currentTime, s)
    ensures FindExpiredLinks(l, currentTime, s).Keys <= FindLinksByStatus(l, s).Keys
  {
  }

  lemma LinkEmailAndStatusIsConjunction(l: LinkTable, email: string, s: PaymentLinkStatus)
    ensures FindLinksByCustomerEmailAndStatus(l, email, s) == FindLinksByStatus(FindLinksByCustomerEmail(l, email), s)
  {
  }

  /** With the unique constraint, findByLinkId yields at most one link. */
  lemma LinkIdFindsAtMostOne(l: LinkTable, linkId: string)
    requires UniqueLinkIds(l)
    ensures |FindByLinkId(l, linkId).Keys| <= 1
    ensures |FindByLinkId(l, linkId).Keys| == 1 <==> LinkIdTaken(l, linkId)
  {
    var r := FindByLinkId(l, linkId);
    var ks := r.Keys;
    forall a, b | a in ks && b in ks ensures a == b {
      assert l[a].linkId == l[b].linkId;
    }
    AtMostOne(ks);
    if LinkIdTaken(l, linkId) {
      var k :| k in l && l[k].linkId == Some(linkId);
      assert k in r.Keys;
    } else {
      assert forall k :: k !in r;
    }
  }

  // ---------------------------------------------------------------------
  // The database

  /** A stored transaction: its key is its id, and onCreate has run. */
  predicate StoredTransaction(r: TransactionRow, k: int) {
    r.id == Some(k) && r.transactionReference.Some? && r.createdAt.Some?
  }

  /** A stored link: its key is its id, onCreate has run, and it names its
      transaction. */
  predicate StoredLink(l: PaymentLinkRow, k: int) {
    && l.id == Some(k) && l.linkId.Some? && l.expiryDate.Some? && l.createdAt.Some?
    && l.transactionId.Some?
  }

  class PaymentStore {
    var transactions: TransactionTable
    var links: LinkTable
    /** The next IDENTITY value of each table. */
    var nextTransactionId: int
    var nextLinkId: int

    predicate Valid()
      reads this
    {
      && (forall k :: k in transactions ==> StoredTransaction(transactions[k], k) && k < nextTransactionId)
      && UniqueReferences(transactions)
      && (forall k :: k in links ==> StoredLink(links[k], k) && k < nextLinkId)
      && UniqueLinkIds(links)
    }

    constructor ()
      ensures Valid() && transactions == map[] && links == map[]
      ensures nextTransactionId == 1 && nextLinkId == 1
    {
      transactions := map[];
      links := map[];
      nextTransactionId := 1;
      nextLinkId := 1;
    }

    /** save() of a new Transaction: @PrePersist runs, the IDENTITY key is
        assigned, and the insert fails on a reference that is already taken. */
    method InsertTransaction(e: Transaction, now: Instant, millis: int)
      returns (r: Result<TransactionRow, PaymentError>)
      requires Valid() && e.id.None?
      modifies this, e
      ensures Valid()
      ensures links == old(links) && nextLinkId == old(nextLinkId)
      ensures var row := Created(old(e.Row()), now, millis).(id := Some(old(nextTransactionId)));
        if ReferenceTaken(old(transactions), row.transactionReference.value) then
          && r == Failure(UniqueViolation("transaction_reference"))
          && transactions == old(transactions) && nextTransactionId == old(nextTransactionId)
        else
          && r == Success(row)
          && transactions == old(transactions)[old(nextTransactionId) := row]
          && nextTransactionId == old(nextTransactionId) + 1
    {
      e.OnCreate(now, millis);
      var ref := e.transactionReference.value;
      if exists k :: k in transactions && transactions[k].transactionReference == Some(ref) {
        return Failure(UniqueViolation("transaction_reference"));
      }
      e.SetId(Some(nextTransactionId));
      var row := e.Row();
      transactions := transactions[nextTransactionId := row];
      nextTransactionId := nextTransactionId + 1;
      r := Success(row);
    }

    /** save() of a loaded Transaction whose id and reference are unchanged.
        The response is built from the entity before the flush; @PreUpdate
        stamps updatedAt on the row that is written. */
    method UpdateTransaction(e: Transaction, now: Instant) returns (response: TransactionRow)
      requires Valid() && e.id.Some? && e.id.value in transactions
      requires e.transactionReference == transactions[e.id.value].transactionReference
      requires e.createdAt.Some?
      modifies this, e
      ensures Valid()
      ensures response == old(e.Row())
      ensures transactions == old(transactions)[old(e.id.value) := Touched(old(e.Row()), now)]
      ensures links == old(links)
      ensures nextTransactionId == old(nextTransactionId) && nextLinkId == old(nextLinkId)
    {
      response := e.Row();
      e.OnUpdate(now);
      transactions := transactions[e.id.value := e.Row()];
    }

    /** save() of a new PaymentLink: @PrePersist runs, then the insert fails on
        a link id that is already taken. */
    method InsertLink(e: PaymentLink, now: Instant, millis: int)
      returns (r: Result<PaymentLinkRow, PaymentError>)
      requires Valid() && e.id.None? && e.transactionId.Some?
      modifies this, e
      ensures Valid()
      ensures transactions == old(transactions) && nextTransactionId == old(nextTransactionId)
      ensures var row := LinkCreated(old(e.Row()), now, millis).(id := Some(old(nextLinkId)));
        if LinkIdTaken(old(links), row.linkId.value) then
          && r == Failure(UniqueViolation("link_id"))
          && links == old(links) && nextLinkId == old(nextLinkId)
        else
          && r == Success(row)
          && links == old(links)[old(nextLinkId) := row]
          && nextLinkId == old(nextLinkId) + 1
    {
      e.OnCreate(now, millis);
      var id := e.linkId.value;
      if exists k :: k in links && links[k].linkId == Some(id) {
        return Failure(UniqueViolation("link_id"));
      }
      e.SetId(Some(nextLinkId));
      var row := e.Row();
      links := links[nextLinkId := row];
      nextLinkId := nextLinkId + 1;
      r := Success(row);
    }

    /** save() of a loaded PaymentLink; the entity has no @PreUpdate hook. */
    method UpdateLink(e: PaymentLink) returns (response: PaymentLinkRow)
      requires Valid() && e.id.Some? && e.id.value in links
      requires e.linkId == links[e.id.value].linkId
      requires StoredLink(e.Row(), e.id.value)
      modifies this
      ensures Valid()
      ensures response == e.Row()
      ensures links == old(links)[e.id.value := e.Row()]
      ensures transactions == old(transactions)
      ensures nextTransactionId == old(nextTransactionId) && nextLinkId == old(nextLinkId)
    {
      response := e.Row();
      links := links[e.id.value := response];
    }
  }
}
