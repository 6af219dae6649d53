/** TransactionService: creation from a request, lookups, processing
    (INITIATED to CAPTURED) and the unchecked status update. */
module TransactionService {
  import opened Common
  import opened TransactionEntity
  import opened PaymentRequests
  import opened PaymentRepository

  /** The entity createTransaction builds before saving: the request's fields,
      with currency and paymentMethod overriding the defaults only when given. */
  function TransactionFromRequest(req: TransactionCreateRequest): (t: TransactionRow)
    ensures t.status == INITIATED && t.id.None? && t.transactionReference.None?
    ensures t.invoiceId == req.invoiceId && t.invoiceNumber == req.invoiceNumber
    ensures t.customerId == req.customerId && t.customerEmail == req.customerEmail
    ensures t.amount == req.amount && t.description == req.description
    ensures t.paymentType == req.paymentType && t.cardType == req.cardType
    ensures t.currency == if req.currency.Some? then req.currency else Some(DefaultCurrency)
    ensures t.paymentMethod == req.paymentMethod
    ensures t.processedAt.None?
  {
    var t := NewTransaction(req.invoiceId, req.invoiceNumber, req.customerId, req.customerEmail,
                            req.amount, req.paymentType, req.cardType, req.description);
    var t := if req.currency.Some? then t.(currency := req.currency) else t;
    if req.paymentMethod.Some? then t.(paymentMethod := req.paymentMethod) else t
  }

  /** What updateTransactionStatus writes into the entity: setStatus, then a
      second unconditional stamp of processedAt when the target is CAPTURED. */
  function StatusUpdated(t: TransactionRow, s: TransactionStatus, now: Instant): (r: TransactionRow)
    ensures r.status == s
    ensures s == CAPTURED ==> r.processedAt == Some(now)
    ensures s != CAPTURED ==> r.processedAt == t.processedAt
    ensures r == t.(status := s, processedAt := r.processedAt)
  {
    var w := WithStatus(t, s, now);
    if s == CAPTURED then w.(processedAt := Some(now)) else w
  }

  /** What processTransaction writes into an INITIATED entity. */
  function Processed(t: TransactionRow, now: Instant): (r: TransactionRow)
    ensures r.status == CAPTURED && r.processedAt == Some(now)
    ensures r == t.(status := CAPTURED, processedAt := Some(now))
  {
    WithStatus(t, CAPTURED, now).(processedAt := Some(now))
  }

  function NotFoundById(id: int): PaymentError {
    TransactionNotFound("Transaction not found with id: " + IntToString(id))
  }

  /** processTransaction and updateTransactionStatus(CAPTURED) write the same row. */
  lemma ProcessIsCaptureUpdate(t: TransactionRow, now: Instant)
    ensures Processed(t, now) == StatusUpdated(t, CAPTURED, now)
  {
  }

  /** The update performs no transition check: every status is reachable from
      every status, and repeating an update changes nothing more. */
  lemma UpdateAcceptsAnyStatus(t: TransactionRow, s: TransactionStatus, now: Instant, later: Instant)
    ensures StatusUpdated(t, s, now).status == s
    ensures s != CAPTURED ==> StatusUpdated(StatusUpdated(t, s, now), s, later) == StatusUpdated(t, s, now)
  {
  }

  /** createTransaction: insert the request's entity; with a fresh reference the
      new row is INITIATED and stored under the next id. */
  method CreateTransaction(db: PaymentStore, req: TransactionCreateRequest, now: Instant, millis: int)
    returns (r: Result<TransactionRow, PaymentError>)
    requires db.Valid()
    modifies db
    ensures db.Valid()
    ensures db.links == old(db.links) && db.nextLinkId == old(db.nextLinkId)
    ensures var row := Created(TransactionFromRequest(req), now, millis).(id := Some(old(db.nextTransactionId)));
      if ReferenceTaken(old(db.transactions), row.transactionReference.value) then
        && r == Failure(UniqueViolation("transaction_reference"))
        && db.transactions == old(db.transactions) && db.nextTransactionId == old(db.nextTransactionId)
      else
        && r == Success(row)
        && db.transactions == old(db.transactions)[old(db.nextTransactionId) := row]
        && db.nextTransactionId == old(db.nextTransactionId) + 1
  {
    var e := new Transaction(req.invoiceId, req.invoiceNumber, req.customerId, req.customerEmail,
                             req.amount, req.paymentType, req.cardType, req.description);
    if req.currency.Some? {
      e.SetCurrency(req.currency);
    }
    if req.paymentMethod.Some? {
      e.SetPaymentMethod(req.paymentMethod);
    }
    assert e.Row() == TransactionFromRequest(req);
    r := db.InsertTransaction(e, now, millis);
  }

  method GetTransactionById(db: PaymentStore, id: int) returns (r: Result<TransactionRow, PaymentError>)
    ensures id in db.transactions ==> r == Success(db.transactions[id])
    ensures id !in db.transactions ==> r == Failure(NotFoundById(id))
  {
    if id in db.transactions {
      r := Success(db.transactions[id]);
    } else {
      r := Failure(NotFoundById(id));
    }
  }

  /** getTransactionByReference: the unique row with that reference. */
  method GetTransactionByReference(db: PaymentStore, ref: string) returns (r: Result<TransactionRow, PaymentError>)
    requires db.Valid()
    ensures r.Success? <==> ReferenceTaken(db.transactions, ref)
    ensures r.Success? ==> FindByTransactionReference(db.transactions, ref).Values == {r.value}
    ensures r.Failure? ==> r.error == TransactionNotFound("Transaction not found with reference: " + ref)
  {
    if !ReferenceTaken(db.transactions, ref) {
      return Failure(TransactionNotFound("Transaction not found with reference: " + ref));
    }
    var k :| k in db.transactions && db.transactions[k].transactionReference == Some(ref);
    var found := FindByTransactionReference(db.transactions, ref);
    forall j | j in found ensures j == k {
      assert db.transactions[j].transactionReference == db.transactions[k].transactionReference;
    }
    assert found.Keys == {k};
    r := Success(db.transactions[k]);
  }

  /** processTransaction: only an INITIATED transaction is processed. */
  method ProcessTransaction(db: PaymentStore, id: int, now: Instant) returns (r: Result<TransactionRow, PaymentError>)
    requires db.Valid()
    modifies db
    ensures db.Valid()
    ensures db.links == old(db.links)
    ensures db.nextTransactionId == old(db.nextTransactionId) && db.nextLinkId == old(db.nextLinkId)
    ensures id !in old(db.transactions) ==> r == Failure(NotFoundById(id)) && db.transactions == old(db.transactions)
    ensures id in old(db.transactions) && old(db.transactions)[id].status != INITIATED ==>
      && r == Failure(IllegalArgument(
           "Transaction can only be processed if it's in INITIATED status. Current status: "
           + StatusName(old(db.transactions)[id].status)))
      && db.transactions == old(db.transactions)
    ensures id in old(db.transactions) && old(db.transactions)[id].status == INITIATED ==>
      var row := Processed(old(db.transactions)[id], now);
      && r == Success(row)
      && db.transactions == old(db.transactions)[id := Touched(row, now)]
  {
    if id !in db.transactions {
      return Failure(NotFoundById(id));
    }
    var e := new Transaction.Load(db.transactions[id]);
    if e.status != INITIATED {
      return Failure(IllegalArgument(
        "Transaction can only be processed if it's in INITIATED status. Current status: "
        + StatusName(e.status)));
    }
    e.SetStatus(CAPTURED, now);
    e.SetProcessedAt(Some(now));
    var saved := db.UpdateTransaction(e, now);
    r := Success(saved);
  }

  /** updateTransactionStatus: any status is accepted. */
  method UpdateTransactionStatus(db: PaymentStore, id: int, s: TransactionStatus, now: Instant)
    returns (r: Result<TransactionRow, PaymentError>)
    requires db.Valid()
    modifies db
    ensures db.Valid()
    ensures db.links == old(db.links)
    ensures db.nextTransactionId == old(db.nextTransactionId) && db.nextLinkId == old(db.nextLinkId)
    ensures id !in old(db.transactions) ==> r == Failure(NotFoundById(id)) && db.transactions == old(db.transactions)
    ensures id in old(db.transactions) ==>
      var row := StatusUpdated(old(db.transactions)[id], s, now);
      && r == Success(row)
      && db.transactions == old(db.transactions)[id := Touched(row, now)]
  {
    if id !in db.transactions {
      return Failure(NotFoundById(id));
    }
    var e := new Transaction.Load(db.transactions[id]);
    e.SetStatus(s, now);
    if s == CAPTURED {
      e.SetProcessedAt(Some(now));
    }
    var saved := db.UpdateTransaction(e, now);
    r := Success(saved);
  }
}
