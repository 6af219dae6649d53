/** The payment service's PaymentLink entity: its defaults and the @PrePersist
    hook that fills in the link id, the expiry date and createdAt. */
module PaymentLinkEntity {
  import opened Common

  datatype PaymentLinkStatus = ACTIVE | USED | CANCELLED | EXPIRED

  function LinkStatusName(s: PaymentLinkStatus): (n: string)
    ensures |n| > 0
  {
    match s
    case ACTIVE => "ACTIVE"
    case USED => "USED"
    case CANCELLED => "CANCELLED"
    case EXPIRED => "EXPIRED"
  }

  /** Every column of the payment_links table; None is Java's null. */
  datatype PaymentLinkRow = PaymentLinkRow(
    id: Option<int>,
    linkId: Option<string>,
    transactionId: Option<int>,
    invoiceId: Option<string>,
    invoiceNumber: Option<string>,
    amount: Option<real>,
    currency: Option<string>,
    customerEmail: Option<string>,
    status: PaymentLinkStatus,
    expiryDate: Option<Instant>,
    createdAt: Option<Instant>,
    description: Option<string>)

  const DefaultCurrency: string := "INR"
  const DefaultExpiryDays: int := 7

  /** The six-argument constructor: currency "INR", status ACTIVE, the rest null. */
  function NewPaymentLink(transactionId: Option<int>, invoiceId: Option<string>,
                          invoiceNumber: Option<string>, amount: Option<real>,
                          customerEmail: Option<string>, description: Option<string>): (r: PaymentLinkRow)
    ensures r.transactionId == transactionId && r.invoiceId == invoiceId
    ensures r.invoiceNumber == invoiceNumber && r.amount == amount
    ensures r.customerEmail == customerEmail && r.description == description
    ensures r.currency == Some(DefaultCurrency) && r.status == ACTIVE
    ensures r.id.None? && r.linkId.None? && r.expiryDate.None? && r.createdAt.None?
  {
    PaymentLinkRow(None, None, transactionId, invoiceId, invoiceNumber, amount,
                   Some(DefaultCurrency), customerEmail, ACTIVE, None, None, description)
  }

  /** The link id onCreate generates. */
  function GeneratedLinkId(millis: int): (id: string)
    ensures IsPrefix("LINK_", id)
  {
    "LINK_" + IntToString(millis)
  }

  /** onCreate: createdAt is now; a null linkId becomes "LINK_" + millis and a
      null expiry becomes now + 7 days; values already set are kept. */
  function LinkCreated(l: PaymentLinkRow, now: Instant, millis: int): (r: PaymentLinkRow)
    ensures r.createdAt == Some(now)
    ensures r.linkId.Some? && r.expiryDate.Some?
    ensures l.linkId.Some? ==> r.linkId == l.linkId
    ensures l.linkId.None? ==> r.linkId == Some(GeneratedLinkId(millis))
    ensures l.expiryDate.Some? ==> r.expiryDate == l.expiryDate
    ensures l.expiryDate.None? ==> r.expiryDate == Some(now + DefaultExpiryDays * MillisPerDay)
    ensures r == l.(createdAt := r.createdAt, linkId := r.linkId, expiryDate := r.expiryDate)
  {
    var id := if l.linkId.Some? then l.linkId else Some(GeneratedLinkId(millis));
    var expiry := if l.expiryDate.Some? then l.expiryDate
                  else Some(now + DefaultExpiryDays * MillisPerDay);
    l.(createdAt := Some(now), linkId := id, expiryDate := expiry)
  }

  /** A link created without an explicit expiry is still open for exactly seven
      days: the strict `isBefore` test first fails one instant after the last
      millisecond of the seventh day. */
  lemma DefaultExpiryWindow(l: PaymentLinkRow, now: Instant, millis: int, t: Instant)
    requires l.expiryDate.None?
    ensures LinkCreated(l, now, millis).expiryDate.value < t
        <==> t > now + 7 * 86_400_000
  {
  }

  /** The column constraints the entity declares. */
  predicate SatisfiesConstraints(l: PaymentLinkRow, isEmail: string -> bool) {
    && l.transactionId.Some?
    && NotBlank(l.invoiceId) && NotBlank(l.invoiceNumber)
    && l.amount.Some? && l.amount.value >= 0.01
    && NotBlank(l.customerEmail) && isEmail(l.customerEmail.value)
  }

  class PaymentLink {
    var id: Option<int>
    var linkId: Option<string>
    var transactionId: Option<int>
    var invoiceId: Option<string>
    var invoiceNumber: Option<string>
    var amount: Option<real>
    var currency: Option<string>
    var customerEmail: Option<string>
    var status: PaymentLinkStatus
    var expiryDate: Option<Instant>
    var createdAt: Option<Instant>
    var description: Option<string>

    function Row(): PaymentLinkRow
      reads this
    {
      PaymentLinkRow(id, linkId, transactionId, invoiceId, invoiceNumber, amount, currency,
                     customerEmail, status, expiryDate, createdAt, description)
    }

    constructor (transactionId: Option<int>, invoiceId: Option<string>,
                 invoiceNumber: Option<string>, amount: Option<real>,
                 customerEmail: Option<string>, description: Option<string>)
      ensures Row() == NewPaymentLink(transactionId, invoiceId, invoiceNumber, amount,
                                      customerEmail, description)
    {
      this.id := None;
      this.linkId := None;
      this.transactionId := transactionId;
      this.invoiceId := invoiceId;
      this.invoiceNumber := invoiceNumber;
      this.amount := amount;
      this.currency := Some(DefaultCurrency);
      this.customerEmail := customerEmail;
      this.status := ACTIVE;
      this.expiryDate := None;
      this.createdAt := None;
      this.description := description;
    }

    constructor Load(r: PaymentLinkRow)
      ensures Row() == r
    {
      id := r.id;
      linkId := r.linkId;
      transactionId := r.transactionId;
      invoiceId := r.invoiceId;
      invoiceNumber := r.invoiceNumber;
      amount := r.amount;
      currency := r.currency;
      customerEmail := r.customerEmail;
      status := r.status;
      expiryDate := r.expiryDate;
      createdAt := r.createdAt;
      description := r.description;
    }

    /** setStatus is a plain store. */
    method SetStatus(s: PaymentLinkStatus)
      modifies this
      ensures Row() == old(Row()).(status := s)
    {
      status := s;
    }

    method SetCurrency(c: Option<string>)
      modifies this
      ensures Row() == old(Row()).(currency := c)
    {
      currency := c;
    }

    method SetExpiryDate(e: Option<Instant>)
      modifies this
      ensures Row() == old(Row()).(expiryDate := e)
    {
      expiryDate := e;
    }

    method SetId(k: Option<int>)
      modifies this
      ensures Row() == old(Row()).(id := k)
    {
      id := k;
    }

    method OnCreate(now: Instant, millis: int)
      modifies this
      ensures Row() == LinkCreated(old(Row()), now, millis)
    {
      createdAt := Some(now);
      if linkId.None? {
        linkId := Some(GeneratedLinkId(millis));
      }
      if expiryDate.None? {
        expiryDate := Some(now + DefaultExpiryDays * MillisPerDay);
      }
    }
  }
}
