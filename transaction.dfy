/** The payment service's Transaction entity: its defaults, its lifecycle hooks
    (@PrePersist, @PreUpdate) and the processedAt rule of setStatus. A row value
    is the entity's state as the repository stores it; the class is the
    mutable entity the services load, change through setters and save. */
module TransactionEntity {
  import opened Common

  /** Values referenced by the services and their tests; the enum declarations
      themselves are not part of this model. */
  datatype TransactionStatus = INITIATED | CAPTURED | CANCELLED | FAILED
  datatype PaymentType = CREDIT | DEBIT
  datatype CardType = VISA | MASTERCARD | AMEX | RUPAY | UPI | NETBANKING

  function StatusName(s: TransactionStatus): (n: string)
    ensures |n| > 0
  {
    match s
    case INITIATED => "INITIATED"
    case CAPTURED => "CAPTURED"
    case CANCELLED => "CANCELLED"
    case FAILED => "FAILED"
  }

  /** Every column of the transactions table; None is Java's null. */
  datatype TransactionRow = TransactionRow(
    id: Option<int>,
    invoiceId: Option<string>,
    invoiceNumber: Option<string>,
    customerId: Option<string>,
    customerEmail: Option<string>,
    amount: Option<real>,
    currency: Option<string>,
    paymentType: Option<PaymentType>,
    cardType: Option<CardType>,
    status: TransactionStatus,
    paymentMethod: Option<string>,
    transactionReference: Option<string>,
    createdAt: Option<Instant>,
    updatedAt: Option<Instant>,
    processedAt: Option<Instant>,
    description: Option<string>)

  const DefaultCurrency: string := "INR"

  /** The eight-argument constructor: it stores its arguments, and every other
      field keeps its initializer (currency "INR", status INITIATED) or null. */
  function NewTransaction(invoiceId: Option<string>, invoiceNumber: Option<string>,
                          customerId: Option<string>, customerEmail: Option<string>,
                          amount: Option<real>, paymentType: Option<PaymentType>,
                          cardType: Option<CardType>, description: Option<string>): (r: TransactionRow)
    ensures r.invoiceId == invoiceId && r.invoiceNumber == invoiceNumber
    ensures r.customerId == customerId && r.customerEmail == customerEmail
    ensures r.amount == amount && r.paymentType == paymentType
    ensures r.cardType == cardType && r.description == description
    ensures r.currency == Some(DefaultCurrency) && r.status == INITIATED
    ensures r.id.None? && r.paymentMethod.None? && r.transactionReference.None?
    ensures r.createdAt.None? && r.updatedAt.None? && r.processedAt.None?
  {
    TransactionRow(None, invoiceId, invoiceNumber, customerId, customerEmail, amount,
                   Some(DefaultCurrency), paymentType, cardType, INITIATED, None, None,
                   None, None, None, description)
  }

  /** setStatus: the status is replaced; CAPTURED stamps processedAt, but only
      when it is still null. No other field changes. */
  function WithStatus(t: TransactionRow, s: TransactionStatus, now: Instant): (r: TransactionRow)
    ensures r.status == s
    ensures r == t.(status := s, processedAt := r.processedAt)
    ensures s != CAPTURED ==> r.processedAt == t.processedAt
    ensures t.processedAt.Some? ==> r.processedAt == t.processedAt
    ensures s == CAPTURED && t.processedAt.None? ==> r.processedAt == Some(now)
  {
    if s == CAPTURED && t.processedAt.None? then t.(status := s, processedAt := Some(now))
    else t.(status := s)
  }

  /** The reference onCreate generates. */
  function GeneratedReference(millis: int): (ref: string)
    ensures IsPrefix("TXN_", ref)
  {
    "TXN_" + IntToString(millis)
  }

  /** onCreate (@PrePersist): both timestamps are now, and a missing reference
      is generated from the clock; an explicit one is kept. */
  function Created(t: TransactionRow, now: Instant, millis: int): (r: TransactionRow)
    ensures r.createdAt == Some(now) && r.updatedAt == Some(now)
    ensures r.transactionReference.Some?
    ensures t.transactionReference.Some? ==> r.transactionReference == t.transactionReference
    ensures t.transactionReference.None? ==> r.transactionReference == Some(GeneratedReference(millis))
    ensures r == t.(createdAt := r.createdAt, updatedAt := r.updatedAt,
                    transactionReference := r.transactionReference)
  {
    var ref := if t.transactionReference.Some? then t.transactionReference
               else Some(GeneratedReference(millis));
    t.(createdAt := Some(now), updatedAt := Some(now), transactionReference := ref)
  }

  /** onUpdate (@PreUpdate): only updatedAt moves. */
  function Touched(t: TransactionRow, now: Instant): (r: TransactionRow)
    ensures r.updatedAt == Some(now)
    ensures r == t.(updatedAt := r.updatedAt)
  {
    t.(updatedAt := Some(now))
  }

  /** The column constraints the entity declares (@NotBlank, @NotNull,
      @DecimalMin("0.01"), @Email). The email grammar is a parameter. */
  predicate SatisfiesConstraints(t: TransactionRow, isEmail: string -> bool) {
    && NotBlank(t.invoiceId) && NotBlank(t.invoiceNumber) && NotBlank(t.customerId)
    && NotBlank(t.customerEmail) && isEmail(t.customerEmail.value)
    && t.amount.Some? && t.amount.value >= 0.01
    && t.paymentType.Some? && t.cardType.Some?
  }

  // ---------------------------------------------------------------------
  // Lemmas about the row functions

  /** setStatus is idempotent, and a second CAPTURED keeps the first stamp. */
  lemma WithStatusIdempotent(t: TransactionRow, s: TransactionStatus, now: Instant, later: Instant)
    ensures WithStatus(WithStatus(t, s, now), s, later) == WithStatus(t, s, now)
  {
  }

  /** Once stamped, processedAt survives every later status change. */
  lemma {:induction false} ProcessedAtStable(t: TransactionRow, ss: seq<TransactionStatus>, now: Instant)
    requires t.processedAt.Some?
    ensures ApplyStatuses(t, ss, now).processedAt == t.processedAt
    ensures |ss| > 0 ==> ApplyStatuses(t, ss, now).status == ss[|ss| - 1]
    decreases |ss|
  {
    if |ss| > 0 {
      ProcessedAtStable(WithStatus(t, ss[0], now), ss[1..], now);
    }
  }

  /** A sequence of setStatus calls, all at the same instant. */
  function ApplyStatuses(t: TransactionRow, ss: seq<TransactionStatus>, now: Instant): TransactionRow
    decreases |ss|
  {
    if |ss| == 0 then t else ApplyStatuses(WithStatus(t, ss[0], now), ss[1..], now)
  }

  /** A status sequence without CAPTURED never stamps processedAt. */
  lemma {:induction false} NoCaptureNoStamp(t: TransactionRow, ss: seq<TransactionStatus>, now: Instant)
    requires forall i :: 0 <= i < |ss| ==> ss[i] != CAPTURED
    ensures ApplyStatuses(t, ss, now).processedAt == t.processedAt
    decreases |ss|
  {
    if |ss| > 0 {
      NoCaptureNoStamp(WithStatus(t, ss[0], now), ss[1..], now);
    }
  }

  /** onCreate on a fresh transaction: the defaults survive, the reference is
      generated. */
  lemma CreatedFreshTransaction(t: TransactionRow, now: Instant, millis: int)
    requires t.transactionReference.None? && t.status == INITIATED
    ensures Created(t, now, millis).status == INITIATED
    ensures Created(t, now, millis).transactionReference == Some("TXN_" + IntToString(millis))
  {
  }

  // ---------------------------------------------------------------------
  // The entity object

  class Transaction {
    var id: Option<int>
    var invoiceId: Option<string>
    var invoiceNumber: Option<string>
    var customerId: Option<string>
    var customerEmail: Option<string>
    var amount: Option<real>
    var currency: Option<string>
    var paymentType: Option<PaymentType>
    var cardType: Option<CardType>
    var status: TransactionStatus
    var paymentMethod: Option<string>
    var transactionReference: Option<string>
    var createdAt: Option<Instant>
    var updatedAt: Option<Instant>
    var processedAt: Option<Instant>
    var description: Option<string>

    /** The entity's current state as a row. */
    function Row(): TransactionRow
      reads this
    {
      TransactionRow(id, invoiceId, invoiceNumber, customerId, customerEmail, amount,
                     currency, paymentType, cardType, status, paymentMethod,
                     transactionReference, createdAt, updatedAt, processedAt, description)
    }

    constructor (invoiceId: Option<string>, invoiceNumber: Option<string>,
                 customerId: Option<string>, customerEmail: Option<string>,
                 amount: Option<real>, paymentType: Option<PaymentType>,
                 cardType: Option<CardType>, description: Option<string>)
      ensures Row() == NewTransaction(invoiceId, invoiceNumber, customerId, customerEmail,
                                      amount, paymentType, cardType, description)
    {
      this.id := None;
      this.invoiceId := invoiceId;
      this.invoiceNumber := invoiceNumber;
      this.customerId := customerId;
      this.customerEmail := customerEmail;
      this.amount := amount;
      this.currency := Some(DefaultCurrency);
      this.paymentType := paymentType;
      this.cardType := cardType;
      this.status := INITIATED;
      this.paymentMethod := None;
      this.transactionReference := None;
      this.createdAt := None;
      this.updatedAt := None;
      this.processedAt := None;
      this.description := description;
    }

    /** The entity as the repository materialises it from a stored row. */
    constructor Load(r: TransactionRow)
      ensures Row() == r
    {
      id := r.id;
      invoiceId := r.invoiceId;
      invoiceNumber := r.invoiceNumber;
      customerId := r.customerId;
      customerEmail := r.customerEmail;
      amount := r.amount;
      currency := r.currency;
      paymentType := r.paymentType;
      cardType := r.cardType;
      status := r.status;
      paymentMethod := r.paymentMethod;
      transactionReference := r.transactionReference;
      createdAt := r.createdAt;
      updatedAt := r.updatedAt;
      processedAt := r.processedAt;
      description := r.description;
    }

    method SetStatus(s: TransactionStatus, now: Instant)
      modifies this
      ensures Row() == WithStatus(old(Row()), s, now)
    {
      status := s;
      if s == CAPTURED && processedAt.None? {
        processedAt := Some(now);
      }
    }

    method SetCurrency(c: Option<string>)
      modifies this
      ensures Row() == old(Row()).(currency := c)
    {
      currency := c;
    }

    method SetPaymentMethod(m: Option<string>)
      modifies this
      ensures Row() == old(Row()).(paymentMethod := m)
    {
      paymentMethod := m;
    }

    method SetProcessedAt(t: Option<Instant>)
      modifies this
      ensures Row() == old(Row()).(processedAt := t)
    {
      processedAt := t;
    }

    method SetId(k: Option<int>)
      modifies this
      ensures Row() == old(Row()).(id := k)
    {
      id := k;
    }

    method OnCreate(now: Instant, millis: int)
      modifies this
      ensures Row() == Created(old(Row()), now, millis)
    {
      createdAt := Some(now);
      updatedAt := Some(now);
      if transactionReference.None? {
        transactionReference := Some(GeneratedReference(millis));
      }
    }

    method OnUpdate(now: Instant)
      modifies this
      ensures Row() == Touched(old(Row()), now)
    {
      updatedAt := Some(now);
    }
  }
}
