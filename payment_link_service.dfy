/** PaymentLinkService: a link is created together with its INITIATED
    transaction, and its lifecycle (ACTIVE to USED, CANCELLED or EXPIRED) drives
    the linked transaction (to CAPTURED, CANCELLED or FAILED). The services run
    in one store; a throw after a write leaves that write in place, since the
    rollback of @Transactional is framework behaviour outside this model. */
module PaymentLinkService {
  import opened Common
  import opened TransactionEntity
  import opened PaymentLinkEntity
  import opened PaymentRequests
  import opened PaymentRepository
  import opened TransactionService

  /** The transaction createPaymentLink builds for a link request. */
  function LinkTransaction(req: PaymentLinkCreateRequest): (t: TransactionRow)
    ensures t.status == INITIATED && t.id.None? && t.transactionReference.None?
    ensures t.customerId == Some("SYSTEM_GENERATED")
    ensures t.paymentType == Some(CREDIT) && t.cardType == Some(VISA)
    ensures t.paymentMethod == Some("Pending")
    ensures t.invoiceId == req.invoiceId && t.invoiceNumber == req.invoiceNumber
    ensures t.customerEmail == req.customerEmail && t.amount == req.amount
    ensures t.description == req.description
    ensures t.currency == if req.currency.Some? then req.currency else Some(TransactionEntity.DefaultCurrency)
  {
    var t := NewTransaction(req.invoiceId, req.invoiceNumber, Some("SYSTEM_GENERATED"),
                            req.customerEmail, req.amount, Some(CREDIT), Some(VISA), req.description);
    var t := if req.currency.Some? then t.(currency := req.currency) else t;
    t.(paymentMethod := Some("Pending"))
  }

  /** The link createPaymentLink builds once the transaction has its id. */
  function LinkFromRequest(req: PaymentLinkCreateRequest, transactionId: int): (l: PaymentLinkRow)
    ensures l.status == ACTIVE && l.id.None? && l.linkId.None?
    ensures l.transactionId == Some(transactionId)
    ensures l.invoiceId == req.invoiceId && l.invoiceNumber == req.invoiceNumber
    ensures l.amount == req.amount && l.customerEmail == req.customerEmail
    ensures l.description == req.description && l.expiryDate == req.expiryDate
    ensures l.currency == if req.currency.Some? then req.currency else Some(PaymentLinkEntity.DefaultCurrency)
  {
    var l := NewPaymentLink(Some(transactionId), req.invoiceId, req.invoiceNumber, req.amount,
                            req.customerEmail, req.description);
    var l := if req.currency.Some? then l.(currency := req.currency) else l;
    if req.expiryDate.Some? then l.(expiryDate := req.expiryDate) else l
  }

  /** A created link expires after the request's expiry, or after seven days. */
  lemma CreatedLinkExpiry(req: PaymentLinkCreateRequest, transactionId: int, now: Instant, millis: int)
    ensures var l := LinkCreated(LinkFromRequest(req, transactionId), now, millis);
      && l.status == ACTIVE && l.transactionId == Some(transactionId)
      && l.expiryDate == (if req.expiryDate.Some? then req.expiryDate
                          else Some(now + DefaultExpiryDays * MillisPerDay))
  {
  }

  /** Key k holds the link with this link id. */
  predicate LinkAt(links: LinkTable, k: int, linkId: string) {
    k in links && links[k].linkId == Some(linkId)
  }

  function LinkNotFound(linkId: string): PaymentError {
    PaymentLinkNotFound("Payment link not found with id: " + linkId)
  }

  function NotActive(s: PaymentLinkStatus): PaymentError {
    IllegalArgument("Payment link is not active. Current status: " + LinkStatusName(s))
  }

  const LinkExpired: PaymentError := IllegalArgument("Payment link has expired")
  const LinkAlreadyUsed: PaymentError := IllegalArgument("Cannot cancel a payment link that has already been used")

  /** The stored row updateTransactionStatus leaves behind. */
  function StoredStatusUpdate(t: TransactionRow, s: TransactionStatus, now: Instant): (r: TransactionRow)
    ensures r.status == s && r.updatedAt == Some(now)
  {
    Touched(StatusUpdated(t, s, now), now)
  }

  method CreatePaymentLink(db: PaymentStore, req: PaymentLinkCreateRequest, now: Instant, millis: int)
    returns (r: Result<PaymentLinkRow, PaymentError>)
    requires db.Valid()
    modifies db
    ensures db.Valid()
    ensures var tx := Created(LinkTransaction(req), now, millis).(id := Some(old(db.nextTransactionId)));
      var link := LinkCreated(LinkFromRequest(req, old(db.nextTransactionId)), now, millis)
                    .(id := Some(old(db.nextLinkId)));
      if ReferenceTaken(old(db.transactions), tx.transactionReference.value) then
        && r == Failure(UniqueViolation("transaction_reference"))
        && db.transactions == old(db.transactions) && db.links == old(db.links)
      else
        && db.transactions == old(db.transactions)[old(db.nextTransactionId) := tx]
        && if LinkIdTaken(old(db.links), link.linkId.value) then
             r == Failure(UniqueViolation("link_id")) && db.links == old(db.links)
           else
             r == Success(link) && db.links == old(db.links)[old(db.nextLinkId) := link]
  {
    var e := new Transaction(req.invoiceId, req.invoiceNumber, Some("SYSTEM_GENERATED"),
                             req.customerEmail, req.amount, Some(CREDIT), Some(VISA), req.description);
    if req.currency.Some? {
      e.SetCurrency(req.currency);
    }
    e.SetPaymentMethod(Some("Pending"));
    assert e.Row() == LinkTransaction(req);
    var saved := db.InsertTransaction(e, now, millis);
    if saved.Failure? {
      return Failure(saved.error);
    }
    r := SaveLinkFor(db, req, saved.value.id.value, now, millis);
  }

  /** The second half of createPaymentLink: the link for the saved transaction. */
  method SaveLinkFor(db: PaymentStore, req: PaymentLinkCreateRequest, transactionId: int, now: Instant, millis: int)
    returns (r: Result<PaymentLinkRow, PaymentError>)
    requires db.Valid()
    modifies db
    ensures db.Valid()
    ensures db.transactions == old(db.transactions) && db.nextTransactionId == old(db.nextTransactionId)
    ensures var link := LinkCreated(LinkFromRequest(req, transactionId), now, millis).(id := Some(old(db.nextLinkId)));
      if LinkIdTaken(old(db.links), link.linkId.value) then
        r == Failure(UniqueViolation("link_id")) && db.links == old(db.links)
      else
        r == Success(link) && db.links == old(db.links)[old(db.nextLinkId) := link]
  {
    var link := new PaymentLink(Some(transactionId), req.invoiceId, req.invoiceNumber, req.amount,
                                req.customerEmail, req.description);
    if req.currency.Some? {
      link.SetCurrency(req.currency);
    }
    if req.expiryDate.Some? {
      link.SetExpiryDate(req.expiryDate);
    }
    assert link.Row() == LinkFromRequest(req, transactionId);
    r := db.InsertLink(link, now, millis);
  }

  method GetPaymentLinkById(db: PaymentStore, linkId: string) returns (r: Result<PaymentLinkRow, PaymentError>)
    requires db.Valid()
    ensures r.Success? <==> LinkIdTaken(db.links, linkId)
    ensures r.Success? ==> FindByLinkId(db.links, linkId).Values == {r.value}
    ensures r.Failure? ==> r.error == LinkNotFound(linkId)
  {
    if !LinkIdTaken(db.links, linkId) {
      return Failure(LinkNotFound(linkId));
    }
    var k :| k in db.links && db.links[k].linkId == Some(linkId);
    var found := FindByLinkId(db.links, linkId);
    forall j | j in found ensures j == k {
      assert db.links[j].linkId == db.links[k].linkId;
    }
    assert found.Keys == {k};
    r := Success(db.links[k]);
  }

  /** processPaymentLink. A key k below is the link's; there is at most one. */
  method ProcessPaymentLink(db: PaymentStore, linkId: string, now: Instant)
    returns (r: Result<PaymentLinkRow, PaymentError>)
    requires db.Valid()
    modifies db
    ensures db.Valid()
    ensures !LinkIdTaken(old(db.links), linkId) ==>
      r == Failure(LinkNotFound(linkId)) && db.links == old(db.links) && db.transactions == old(db.transactions)
    ensures forall k :: LinkAt(old(db.links), k, linkId) && old(db.links)[k].status != ACTIVE ==>
      (&& r == Failure(NotActive(old(db.links)[k].status))
       && db.links == old(db.links) && db.transactions == old(db.transactions))
    ensures forall k :: LinkAt(old(db.links), k, linkId) ==>
      old(db.links)[k].status == ACTIVE && old(db.links)[k].expiryDate.value < now ==>
      (&& r == Failure(LinkExpired)
       && db.links == old(db.links)[k := old(db.links)[k].(status := EXPIRED)]
       && db.transactions == old(db.transactions))
    ensures forall k :: LinkAt(old(db.links), k, linkId) ==>
      old(db.links)[k].status == ACTIVE && !(old(db.links)[k].expiryDate.value < now) ==>
      (var used := old(db.links)[k].(status := USED);
       var tid := used.transactionId.value;
       && db.links == old(db.links)[k := used]
       && (tid in old(db.transactions) ==>
             && r == Success(used)
             && db.transactions == old(db.transactions)[tid := StoredStatusUpdate(old(db.transactions)[tid], CAPTURED, now)])
       && (tid !in old(db.transactions) ==>
             r == Failure(NotFoundById(tid)) && db.transactions == old(db.transactions)))
  {
    if !LinkIdTaken(db.links, linkId) {
      return Failure(LinkNotFound(linkId));
    }
    var k :| k in db.links && db.links[k].linkId == Some(linkId);
    var e := new PaymentLink.Load(db.links[k]);
    if e.status != ACTIVE {
      return Failure(NotActive(e.status));
    }
    if e.expiryDate.value < now {
      e.SetStatus(EXPIRED);
      var _ := db.UpdateLink(e);
      return Failure(LinkExpired);
    }
    e.SetStatus(USED);
    var saved := db.UpdateLink(e);
    var u := UpdateTransactionStatus(db, e.transactionId.value, CAPTURED, now);
    if u.Failure? {
      return Failure(u.error);
    }
    r := Success(saved);
  }

  /** cancelPaymentLink: anything but a USED link is cancelled, an EXPIRED or
      already CANCELLED one included. */
  method CancelPaymentLink(db: PaymentStore, linkId: string, now: Instant)
    returns (r: Result<PaymentLinkRow, PaymentError>)
    requires db.Valid()
    modifies db
    ensures db.Valid()
    ensures !LinkIdTaken(old(db.links), linkId) ==>
      r == Failure(LinkNotFound(linkId)) && db.links == old(db.links) && db.transactions == old(db.transactions)
    ensures forall k :: LinkAt(old(db.links), k, linkId) && old(db.links)[k].status == USED ==>
      (r == Failure(LinkAlreadyUsed) && db.links == old(db.links) && db.transactions == old(db.transactions))
    ensures forall k :: LinkAt(old(db.links), k, linkId) && old(db.links)[k].status != USED ==>
      (var cancelled := old(db.links)[k].(status := PaymentLinkStatus.CANCELLED);
       var tid := cancelled.transactionId.value;
       && db.links == old(db.links)[k := cancelled]
       && (tid in old(db.transactions) ==>
             && r == Success(cancelled)
             && db.transactions == old(db.transactions)[tid :=
                  StoredStatusUpdate(old(db.transactions)[tid], TransactionStatus.CANCELLED, now)])
       && (tid !in old(db.transactions) ==>
             r == Failure(NotFoundById(tid)) && db.transactions == old(db.transactions)))
  {
    if !LinkIdTaken(db.links, linkId) {
      return Failure(LinkNotFound(linkId));
    }
    var k :| k in db.links && db.links[k].linkId == Some(linkId);
    var e := new PaymentLink.Load(db.links[k]);
    if e.status == USED {
      return Failure(LinkAlreadyUsed);
    }
    e.SetStatus(PaymentLinkStatus.CANCELLED);
    var saved := db.UpdateLink(e);
    var u := UpdateTransactionStatus(db, e.transactionId.value, TransactionStatus.CANCELLED, now);
    if u.Failure? {
      return Failure(u.error);
    }
    r := Success(saved);
  }

  // ---------------------------------------------------------------------
  // expireOldLinks

  /** The keys findExpiredLinks(now, ACTIVE) returns. */
  function ExpiredActiveKeys(links: LinkTable, now: Instant): (ks: set<int>)
    ensures ks <= links.Keys
    ensures forall k :: k in ks <==> k in links && links[k].status == ACTIVE && ExpiredAt(links[k], now)
  {
    FindExpiredLinks(links, now, ACTIVE).Keys
  }

  /** The links of ks marked EXPIRED, every other link as it was. */
  function ExpireLinks(links: LinkTable, ks: set<int>): (r: LinkTable)
    ensures r.Keys == links.Keys
  {
    map k | k in links :: if k in ks then links[k].(status := EXPIRED) else links[k]
  }

  /** The transactions the links of ks point at. */
  function TargetTransactions(links: LinkTable, ks: set<int>): set<int> {
    set k | k in ks && k in links && links[k].transactionId.Some? :: links[k].transactionId.value
  }

  /** The transactions of ts as updateTransactionStatus(FAILED) leaves them. */
  function FailTransactions(txs: TransactionTable, ts: set<int>, now: Instant): (r: TransactionTable)
    ensures r.Keys == txs.Keys
  {
    map t | t in txs :: if t in ts then StoredStatusUpdate(txs[t], FAILED, now) else txs[t]
  }

  /** Expiry acts on exactly the selected links: they become EXPIRED, nothing
      else changes, and no ACTIVE expired link remains. */
  lemma ExpireLinksExact(links: LinkTable, now: Instant)
    ensures var after := ExpireLinks(links, ExpiredActiveKeys(links, now));
      && (forall k :: k in links && k in ExpiredActiveKeys(links, now) ==> after[k].status == EXPIRED)
      && (forall k :: k in links && k !in ExpiredActiveKeys(links, now) ==> after[k] == links[k])
      && ExpiredActiveKeys(after, now) == {}
  {
    var ks := ExpiredActiveKeys(links, now);
    var after := ExpireLinks(links, ks);
    forall k | k in after
      ensures !(after[k].status == ACTIVE && ExpiredAt(after[k], now))
    {
      if k !in ks {
        assert after[k] == links[k];
      }
    }
  }

  /** The failed transactions are exactly the targets; processedAt is kept. */
  lemma FailTransactionsExact(txs: TransactionTable, ts: set<int>, now: Instant)
    ensures var after := FailTransactions(txs, ts, now);
      && (forall t :: t in txs && t in ts ==>
            after[t].status == FAILED && after[t].processedAt == txs[t].processedAt)
      && (forall t :: t in txs && t !in ts ==> after[t] == txs[t])
  {
  }

  /** A second FAILED update at the same instant leaves the row alone; this is
      why two links sharing a transaction are harmless. */
  lemma StoredFailIdempotent(t: TransactionRow, now: Instant)
    ensures StoredStatusUpdate(StoredStatusUpdate(t, FAILED, now), FAILED, now)
         == StoredStatusUpdate(t, FAILED, now)
  {
  }

  lemma ExpireStep(links: LinkTable, done: set<int>, k: int)
    requires k in links
    ensures ExpireLinks(links, done)[k := links[k].(status := EXPIRED)] == ExpireLinks(links, done + {k})
  {
  }

  lemma TargetStep(links: LinkTable, done: set<int>, k: int)
    requires k in links && links[k].transactionId.Some?
    ensures TargetTransactions(links, done + {k}) == TargetTransactions(links, done) + {links[k].transactionId.value}
  {
  }

  lemma {:induction false} FailStep(txs: TransactionTable, ts: set<int>, t: int, now: Instant)
    requires t in txs
    ensures var cur := FailTransactions(txs, ts, now);
      cur[t := StoredStatusUpdate(cur[t], FAILED, now)] == FailTransactions(txs, ts + {t}, now)
  {
    var cur := FailTransactions(txs, ts, now);
    if t in ts {
      StoredFailIdempotent(txs[t], now);
    }
    var lhs := cur[t := StoredStatusUpdate(cur[t], FAILED, now)];
    var rhs := FailTransactions(txs, ts + {t}, now);
    forall u | u in txs ensures lhs[u] == rhs[u] {
    }
    assert lhs.Keys == rhs.Keys;
  }

  /** One iteration of expireOldLinks: the link becomes EXPIRED and is saved,
      then its transaction is updated to FAILED. */
  method ExpireOne(db: PaymentStore, k: int, now: Instant) returns (u: Result<TransactionRow, PaymentError>)
    requires db.Valid() && k in db.links
    modifies db
    ensures db.Valid()
    ensures db.links == old(db.links)[k := old(db.links)[k].(status := EXPIRED)]
    ensures var tid := old(db.links)[k].transactionId.value;
      && (tid in old(db.transactions) ==>
            && u.Success?
            && db.transactions == old(db.transactions)[tid := StoredStatusUpdate(old(db.transactions)[tid], FAILED, now)])
      && (tid !in old(db.transactions) ==>
            u.Failure? && u.error.TransactionNotFound? && db.transactions == old(db.transactions))
  {
    var e := new PaymentLink.Load(db.links[k]);
    e.SetStatus(EXPIRED);
    var _ := db.UpdateLink(e);
    u := UpdateTransactionStatus(db, e.transactionId.value, FAILED, now);
  }

  /** The loop state of expireOldLinks after the links of done were handled. */
  ghost predicate ExpiredSoFar(links: LinkTable, txs: TransactionTable,
                               links0: LinkTable, txs0: TransactionTable, done: set<int>, now: Instant) {
    && links == ExpireLinks(links0, done)
    && txs == FailTransactions(txs0, TargetTransactions(links0, done), now)
    && TargetTransactions(links0, done) <= txs0.Keys
  }

  lemma ExpiredNothingYet(links0: LinkTable, txs0: TransactionTable, now: Instant)
    ensures ExpiredSoFar(links0, txs0, links0, txs0, {}, now)
  {
    assert ExpireLinks(links0, {}) == links0;
    assert FailTransactions(txs0, TargetTransactions(links0, {}), now) == txs0;
  }

  /** One more link handled successfully keeps the loop state. */
  lemma {:induction false} ExpiredOneMore(links: LinkTable, txs: TransactionTable,
                                          links0: LinkTable, txs0: TransactionTable,
                                          done: set<int>, k: int, now: Instant)
    requires ExpiredSoFar(links, txs, links0, txs0, done, now)
    requires k in links0 && k !in done && links0[k].transactionId.Some?
    requires links0[k].transactionId.value in txs0
    ensures var tid := links0[k].transactionId.value;
      ExpiredSoFar(links[k := links[k].(status := EXPIRED)],
                   txs[tid := StoredStatusUpdate(txs[tid], FAILED, now)],
                   links0, txs0, done + {k}, now)
  {
    assert links[k] == links0[k];
    ExpireStep(links0, done, k);
    TargetStep(links0, done, k);
    FailStep(txs0, TargetTransactions(links0, done), links0[k].transactionId.value, now);
  }

  /** A selected link whose transaction is missing violates the success condition. */
  lemma MissingTargetFails(links0: LinkTable, txs0: TransactionTable, all: set<int>, k: int)
    requires k in all && k in links0 && links0[k].transactionId.Some?
    requires links0[k].transactionId.value !in txs0
    ensures !(TargetTransactions(links0, all) <= txs0.Keys)
  {
    assert links0[k].transactionId.value in TargetTransactions(links0, all);
  }

  /** Moving one key from the pending to the handled set keeps the partition. */
  lemma MoveOne(todo: set<int>, done: set<int>, all: set<int>, k: int)
    requires todo + done == all && todo !! done && k in todo
    ensures (todo - {k}) + (done + {k}) == all && (todo - {k}) !! (done + {k})
  {
  }

  /** ExpireOne seen from the loop of expireOldLinks: a success extends the
      handled set by k, a failure shows that some selected link's transaction
      is missing. */
  method ExpireNext(db: PaymentStore, k: int, now: Instant, ghost links0: LinkTable,
                    ghost txs0: TransactionTable, ghost done: set<int>, ghost all: set<int>)
    returns (u: Result<TransactionRow, PaymentError>)
    requires db.Valid() && k in all && k !in done && all <= links0.Keys
    requires ExpiredSoFar(db.links, db.transactions, links0, txs0, done, now)
    modifies db
    ensures db.Valid()
    ensures u.Success? ==> ExpiredSoFar(db.links, db.transactions, links0, txs0, done + {k}, now)
    ensures u.Failure? ==> u.error.TransactionNotFound? && !(TargetTransactions(links0, all) <= txs0.Keys)
  {
    ghost var linksBefore, txsBefore := db.links, db.transactions;
    assert db.links[k] == links0[k];
    u := ExpireOne(db, k, now);
    if u.Failure? {
      MissingTargetFails(links0, txs0, all, k);
    } else {
      ExpiredOneMore(linksBefore, txsBefore, links0, txs0, done, k, now);
    }
  }

  /** expireOldLinks: every ACTIVE link whose expiry has passed becomes EXPIRED
      and its transaction FAILED. A link whose transaction is missing makes
      updateTransactionStatus throw, which ends the loop. */
  method ExpireOldLinks(db: PaymentStore, now: Instant) returns (r: Result<(), PaymentError>)
    requires db.Valid()
    modifies db
    ensures db.Valid()
    ensures var ks := ExpiredActiveKeys(old(db.links), now);
      r.Success? <==> TargetTransactions(old(db.links), ks) <= old(db.transactions).Keys
    ensures var ks := ExpiredActiveKeys(old(db.links), now);
      r.Success? ==>
        && db.links == ExpireLinks(old(db.links), ks)
        && db.transactions == FailTransactions(old(db.transactions), TargetTransactions(old(db.links), ks), now)
    ensures r.Failure? ==> r.error.TransactionNotFound?
  {
    ghost var links0, txs0 := db.links, db.transactions;
    var todo := FindExpiredLinks(db.links, now, ACTIVE).Keys;
    ghost var all := todo;
    ghost var done: set<int> := {};
    ExpiredNothingYet(links0, txs0, now);
    while todo != {}
      invariant db.Valid()
      invariant todo + done == all && todo !! done
      invariant ExpiredSoFar(db.links, db.transactions, links0, txs0, done, now)
      decreases |todo|
    {
      NonEmptyHasElement(todo);
      var k :| k in todo;
      var u := ExpireNext(db, k, now, links0, txs0, done, all);
      if u.Failure? {
        return Failure(u.error);
      }
      MoveOne(todo, done, all, k);
      todo := todo - {k};
      done := done + {k};
    }
    r := Success(());
  }
}
