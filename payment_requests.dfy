/** The two request bodies of the payment service and the Bean Validation
    constraints their fields declare. The @Email grammar is abstract: it is a
    parameter `isEmail`, and, as Bean Validation does, a null address passes
    @Email and is caught by @NotBlank alone. */
module PaymentRequests {
  import opened Common
  import opened TransactionEntity

  datatype TransactionCreateRequest = TransactionCreateRequest(
    invoiceId: Option<string>,
    invoiceNumber: Option<string>,
    customerId: Option<string>,
    customerEmail: Option<string>,
    amount: Option<real>,
    currency: Option<string>,
    paymentType: Option<PaymentType>,
    cardType: Option<CardType>,
    paymentMethod: Option<string>,
    description: Option<string>)

  datatype PaymentLinkCreateRequest = PaymentLinkCreateRequest(
    invoiceId: Option<string>,
    invoiceNumber: Option<string>,
    amount: Option<real>,
    currency: Option<string>,
    customerEmail: Option<string>,
    expiryDate: Option<Instant>,
    description: Option<string>)

  /** `new TransactionCreateRequest()`: only currency has an initializer. */
  function EmptyTransactionRequest(): (r: TransactionCreateRequest)
    ensures r.currency == Some("INR")
    ensures r.invoiceId.None? && r.invoiceNumber.None? && r.customerId.None?
    ensures r.customerEmail.None? && r.amount.None? && r.paymentType.None?
    ensures r.cardType.None? && r.paymentMethod.None? && r.description.None?
  {
    TransactionCreateRequest(None, None, None, None, None, Some("INR"), None, None, None, None)
  }

  /** `new PaymentLinkCreateRequest()`. */
  function EmptyPaymentLinkRequest(): (r: PaymentLinkCreateRequest)
    ensures r.currency == Some("INR")
    ensures r.invoiceId.None? && r.invoiceNumber.None? && r.amount.None?
    ensures r.customerEmail.None? && r.expiryDate.None? && r.description.None?
  {
    PaymentLinkCreateRequest(None, None, None, Some("INR"), None, None, None)
  }

  /** @DecimalMin("0.01") is inclusive. */
  predicate AmountOk(a: Option<real>) {
    a.Some? && a.value >= 0.01
  }

  predicate EmailOk(e: Option<string>, isEmail: string -> bool) {
    NotBlank(e) && isEmail(e.value)
  }

  predicate ValidTransactionRequest(r: TransactionCreateRequest, isEmail: string -> bool) {
    && NotBlank(r.invoiceId) && NotBlank(r.invoiceNumber) && NotBlank(r.customerId)
    && EmailOk(r.customerEmail, isEmail) && AmountOk(r.amount)
    && r.paymentType.Some? && r.cardType.Some?
  }

  predicate ValidPaymentLinkRequest(r: PaymentLinkCreateRequest, isEmail: string -> bool) {
    && NotBlank(r.invoiceId) && NotBlank(r.invoiceNumber)
    && AmountOk(r.amount) && EmailOk(r.customerEmail, isEmail)
  }

  /** The messages of the violated constraints on an e-mail field. */
  function EmailViolations(e: Option<string>, isEmail: string -> bool): (v: set<string>)
    ensures v == {} <==> EmailOk(e, isEmail)
    ensures v <= {"Valid email is required", "Customer email is required"}
  {
    (if e.Some? && !isEmail(e.value) then {"Valid email is required"} else {})
    + (if !NotBlank(e) then {"Customer email is required"} else {})
  }

  function AmountViolations(a: Option<real>): (v: set<string>)
    ensures v == {} <==> AmountOk(a)
    ensures v <= {"Amount is required", "Amount must be greater than 0"}
    ensures "Amount must be greater than 0" in v <==> a.Some? && a.value < 0.01
  {
    if a.None? then {"Amount is required"}
    else if a.value < 0.01 then {"Amount must be greater than 0"}
    else {}
  }

  /** Every violated constraint's message; a non-empty set is answered with 400
      "Validation Failed". */
  function TransactionRequestViolations(r: TransactionCreateRequest, isEmail: string -> bool): (v: set<string>)
    ensures v == {} <==> ValidTransactionRequest(r, isEmail)
    ensures !NotBlank(r.invoiceId) <==> "Invoice ID is required" in v
    ensures !NotBlank(r.customerId) <==> "Customer ID is required" in v
    ensures r.amount.Some? && r.amount.value < 0.01 <==> "Amount must be greater than 0" in v
  {
    var ids := IdentityViolations(r);
    var email := EmailViolations(r.customerEmail, isEmail);
    var amount := AmountViolations(r.amount);
    var types := (if r.paymentType.None? then {"Payment type is required"} else {})
                 + (if r.cardType.None? then {"Card type is required"} else {});
    assert "Invoice ID is required" !in email + amount + types;
    assert "Customer ID is required" !in email + amount + types;
    assert "Amount must be greater than 0" !in ids + email + types;
    ids + email + amount + types
  }

  /** The three text fields of a transaction request. */
  function IdentityViolations(r: TransactionCreateRequest): (v: set<string>)
    ensures v <= {"Invoice ID is required", "Invoice number is required", "Customer ID is required"}
    ensures v == {} <==> NotBlank(r.invoiceId) && NotBlank(r.invoiceNumber) && NotBlank(r.customerId)
    ensures !NotBlank(r.invoiceId) <==> "Invoice ID is required" in v
    ensures !NotBlank(r.customerId) <==> "Customer ID is required" in v
  {
    (if !NotBlank(r.invoiceId) then {"Invoice ID is required"} else {})
    + (if !NotBlank(r.invoiceNumber) then {"Invoice number is required"} else {})
    + (if !NotBlank(r.customerId) then {"Customer ID is required"} else {})
  }

  function PaymentLinkRequestViolations(r: PaymentLinkCreateRequest, isEmail: string -> bool): (v: set<string>)
    ensures v == {} <==> ValidPaymentLinkRequest(r, isEmail)
    ensures !NotBlank(r.invoiceId) <==> "Invoice ID is required" in v
    ensures !NotBlank(r.invoiceNumber) <==> "Invoice number is required" in v
  {
    (if !NotBlank(r.invoiceId) then {"Invoice ID is required"} else {})
    + (if !NotBlank(r.invoiceNumber) then {"Invoice number is required"} else {})
    + AmountViolations(r.amount)
    + EmailViolations(r.customerEmail, isEmail)
  }

  /** @NotBlank is the `trim()` test, not `Character.isWhitespace`: an em
      space is kept by `trim()` and so is not blank, while NUL is trimmed away. */
  lemma NotBlankIsTrimTest(r: TransactionCreateRequest, isEmail: string -> bool)
    ensures "Invoice ID is required" !in TransactionRequestViolations(r.(invoiceId := Some("\U{2003}")), isEmail)
    ensures "Invoice ID is required" in TransactionRequestViolations(r.(invoiceId := Some("\U{0000}")), isEmail)
  {
    assert !TrimIsEmpty("\U{2003}") by { assert "\U{2003}"[0] > ' '; }
  }

  /** A request the controller accepts yields a transaction the entity's own
      constraints accept. */
  lemma ValidRequestGivesValidTransaction(r: TransactionCreateRequest, isEmail: string -> bool)
    requires ValidTransactionRequest(r, isEmail)
    ensures SatisfiesConstraints(NewTransaction(r.invoiceId, r.invoiceNumber, r.customerId,
      r.customerEmail, r.amount, r.paymentType, r.cardType, r.description), isEmail)
  {
  }

  /** The empty request with a negative amount and a malformed address is
      rejected, and both problems are reported. */
  lemma NegativeAmountAndBadEmailRejected(isEmail: string -> bool, email: string)
    requires !isEmail(email)
    ensures var r := EmptyTransactionRequest().(amount := Some(-100.0), customerEmail := Some(email));
      && !ValidTransactionRequest(r, isEmail)
      && "Amount must be greater than 0" in TransactionRequestViolations(r, isEmail)
      && "Valid email is required" in TransactionRequestViolations(r, isEmail)
  {
  }

  /** A payment-link request without invoice fields is rejected for both. */
  lemma MissingInvoiceFieldsRejected(isEmail: string -> bool, email: string)
    requires !isEmail(email)
    ensures var r := EmptyPaymentLinkRequest().(amount := Some(2000.0), customerEmail := Some(email));
      && !ValidPaymentLinkRequest(r, isEmail)
      && "Invoice ID is required" in PaymentLinkRequestViolations(r, isEmail)
      && "Invoice number is required" in PaymentLinkRequestViolations(r, isEmail)
      && "Valid email is required" in PaymentLinkRequestViolations(r, isEmail)
  {
  }
}
