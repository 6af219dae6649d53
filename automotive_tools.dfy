/** The mock MCP tools of the automotive multi-agent demo
    (automotive_multi-agent.py) and the wiring of its four agents. Each tool
    returns a JSON-like envelope; the model keeps the fields a caller can branch
    on and the fixed values the stubs return. */
module AutomotiveTools {
  import opened Common
  import opened Agents

  /** A tool's response dictionary: `success` plus either `result` or
      `error`/`message`. `mcp_server` is absent from create_payment_link's failures. */
  datatype ToolResponse<T> =
    | ToolSuccess(tool: string, result: T, timestamp: string, mcpServer: string)
    | ToolFailure(tool: string, error: string, message: string, failureServer: Option<string>)

  const StubTimestamp: string := "2025-01-15T10:30:00Z"

  // ---------------------------------------------------------------------
  // Lookup stubs

  datatype RepairOrderDetails = RepairOrderDetails(
    roNumber: string, status: string, customerId: string, vehicleId: string,
    customerEmail: string, totalAmount: real, parts: seq<string>, canModify: bool,
    createdDate: string)

  /** Knows exactly one repair order, "RO_001". */
  function GetRepairOrderDetails(roNumber: string): (r: ToolResponse<RepairOrderDetails>)
    ensures r.ToolSuccess? <==> roNumber == "RO_001"
    ensures r.tool == "get_repair_order_details"
    ensures r.ToolSuccess? ==>
      && r.result.roNumber == roNumber && r.result.status == "IN_PROGRESS"
      && r.result.parts == [] && r.result.canModify
    ensures r.ToolFailure? ==>
      && r.error == "Repair Order Not Found"
      && r.message == "Repair order " + roNumber + " not found"
      && r.failureServer == Some("repair-orders-server-3003")
  {
    if roNumber == "RO_001" then
      ToolSuccess("get_repair_order_details",
        RepairOrderDetails(roNumber, "IN_PROGRESS", "CUST_001", "VEH_001", "customer@example.com",
                           145.99, [], true, "2025-01-15"),
        StubTimestamp, "repair-orders-server-3003")
    else
      ToolFailure("get_repair_order_details", "Repair Order Not Found",
                  "Repair order " + roNumber + " not found", Some("repair-orders-server-3003"))
  }

  datatype PartDetails = PartDetails(
    partNumber: string, description: string, category: string, unitPrice: real,
    currency: string, brand: string, inStock: bool, availableQuantity: int,
    compatibility: seq<string>)

  /** Knows exactly one part, "PART_001". */
  function GetPartByNumber(partNumber: string): (r: ToolResponse<PartDetails>)
    ensures r.ToolSuccess? <==> partNumber == "PART_001"
    ensures r.tool == "get_part_by_number"
    ensures r.ToolSuccess? ==>
      && r.result.partNumber == partNumber && r.result.inStock
      && r.result.availableQuantity == 25
    ensures r.ToolFailure? ==>
      && r.error == "Part Not Found"
      && r.message == "Part " + partNumber + " not found in catalog"
      && r.failureServer == Some("parts-server-3005")
  {
    if partNumber == "PART_001" then
      ToolSuccess("get_part_by_number",
        PartDetails(partNumber, "Brake Pad Set - Front", "BRAKES", 45.99, "INR", "OEM", true, 25,
                    ["Honda Civic", "Honda Accord"]),
        StubTimestamp, "parts-server-3005")
    else
      ToolFailure("get_part_by_number", "Part Not Found",
                  "Part " + partNumber + " not found in catalog", Some("parts-server-3005"))
  }

  // ---------------------------------------------------------------------
  // The e-mail pattern ^[^\s@]+@[^\s@]+\.[^\s@]+$ under re.match

  /** A character of the class [^\s@]. */
  predicate PlainChar(c: char) {
    !PyIsSpace(c) && c != '@'
  }

  predicate PlainRun(s: string) {
    |s| > 0 && forall i :: 0 <= i < |s| ==> PlainChar(s[i])
  }

  /** The language of [^\s@]+@[^\s@]+\.[^\s@]+ : local part, '@', domain and a
      last label separated by some dot (the classes themselves may contain dots). */
  ghost predicate EmailShape(t: string) {
    exists l, d, e :: PlainRun(l) && PlainRun(d) && PlainRun(e) && t == l + "@" + d + "." + e
  }

  /** What the pattern accepts: the shape, optionally followed by one newline,
      since `$` also matches just before a final "\n". */
  ghost predicate ValidEmail(s: string) {
    EmailShape(s) || (|s| > 0 && s[|s| - 1] == '\n' && EmailShape(s[..|s| - 1]))
  }

  /** Scanning matcher: split at the first '@', then look for a dot with a
      character on each side in the rest. */
  predicate MatchesBody(t: string) {
    var at := FirstIndexOf(t, '@');
    && at < |t|
    && PlainRun(t[..at])
    && PlainRun(t[at + 1..])
    && |t| - at - 1 >= 3
    && Contains(t[at + 2..|t| - 1], ".")
  }

  predicate MatchesEmailPattern(s: string) {
    MatchesBody(s) || (|s| > 0 && s[|s| - 1] == '\n' && MatchesBody(s[..|s| - 1]))
  }

  /** Whatever the scanning matcher accepts has the pattern's shape. */
  lemma MatchesBodyShape(t: string)
    requires MatchesBody(t)
    ensures EmailShape(t)
  {
    var at := FirstIndexOf(t, '@');
    var l, r := t[..at], t[at + 1..];
    assert t == l + "@" + r;
    assert t[at + 2..|t| - 1] == r[1..|r| - 1];
    var d, e := DotSplit(r);
    assert t == l + "@" + d + "." + e;
  }

  /** A plain run with a dot strictly inside splits there into two plain runs. */
  lemma DotSplit(r: string) returns (d: string, e: string)
    requires PlainRun(r) && |r| >= 3 && Contains(r[1..|r| - 1], ".")
    ensures PlainRun(d) && PlainRun(e) && r == d + "." + e
  {
    var inner := r[1..|r| - 1];
    ContainsIffOccurs(inner, ".");
    var j :| OccursAt(inner, ".", j);
    assert inner[j..j + 1] == ".";
    assert inner[j] == '.';
    assert r[j + 1] == '.';
    d, e := r[..j + 1], r[j + 2..];
    assert r == d + "." + e;
  }

  /** A run of plain characters with a dot inside is itself a plain run. */
  lemma DottedPlainRun(d: string, e: string)
    requires PlainRun(d) && PlainRun(e)
    ensures PlainRun(d + "." + e)
  {
    var r := d + "." + e;
    forall i | 0 <= i < |r| ensures PlainChar(r[i]) {
      if i < |d| { assert r[i] == d[i]; }
      else if i == |d| { assert r[i] == '.'; }
      else { assert r[i] == e[i - |d| - 1]; }
    }
  }

  /** In `l + "@" + r` with no '@' in l, the first '@' is the one after l. */
  lemma SplitAtFirstAt(l: string, r: string)
    requires PlainRun(l)
    ensures var t := l + "@" + r;
      && FirstIndexOf(t, '@') == |l|
      && t[..|l|] == l && t[|l| + 1..] == r
      && (|r| >= 2 ==> t[|l| + 2..|t| - 1] == r[1..|r| - 1])
  {
    var t := l + "@" + r;
    assert forall k :: 0 <= k < |l| ==> t[k] == l[k];
    assert t[|l|] == '@';
  }

  /** The dot between two non-empty runs lies strictly inside. */
  lemma InnerDot(d: string, e: string)
    requires |d| > 0 && |e| > 0
    ensures var r := d + "." + e; Contains(r[1..|r| - 1], ".")
  {
    var r := d + "." + e;
    var inner := r[1..|r| - 1];
    assert r[|d|] == '.';
    assert inner[|d| - 1..|d|] == ".";
    OccursContains(inner, ".", |d| - 1);
  }

  /** Whatever has the pattern's shape, the scanning matcher accepts. */
  lemma ShapeMatchesBody(t: string)
    requires EmailShape(t)
    ensures MatchesBody(t)
  {
    var l, d, e :| PlainRun(l) && PlainRun(d) && PlainRun(e) && t == l + "@" + d + "." + e;
    var r := d + "." + e;
    assert t == l + "@" + r;
    SplitAtFirstAt(l, r);
    DottedPlainRun(d, e);
    InnerDot(d, e);
  }

  lemma MatchesBodyIffShape(t: string)
    ensures MatchesBody(t) <==> EmailShape(t)
  {
    if MatchesBody(t) { MatchesBodyShape(t); }
    if EmailShape(t) { ShapeMatchesBody(t); }
  }

  /** The scanning matcher accepts exactly the pattern's language. */
  lemma MatchesEmailPatternIffValid(s: string)
    ensures MatchesEmailPattern(s) <==> ValidEmail(s)
  {
    MatchesBodyIffShape(s);
    if |s| > 0 {
      MatchesBodyIffShape(s[..|s| - 1]);
    }
  }

  /** The one trailing newline the pattern lets through. */
  lemma TrailingNewlineAccepted()
    ensures MatchesEmailPattern("a@b.c\n")
  {
    var l, d, e := "a", "b", "c";
    assert PlainRun(l) && PlainRun(d) && PlainRun(e);
    assert "a@b.c\n"[..5] == l + "@" + d + "." + e;
    assert EmailShape("a@b.c\n"[..5]);
    assert ValidEmail("a@b.c\n");
    MatchesEmailPatternIffValid("a@b.c\n");
  }

  /** A second newline, a missing dot or a space is rejected. */
  lemma MalformedEmailsRejected()
    ensures !MatchesEmailPattern("a@b.c\n\n")
    ensures !MatchesEmailPattern("a@b") && !MatchesEmailPattern("a b@c.d")
  {
    var s := "a@b.c\n\n";
    assert FirstIndexOf(s, '@') == 1;
    assert s[2..][3] == '\n' && !PlainChar('\n');
    assert !MatchesBody(s);
    assert s[..6][2..][3] == '\n';
    assert FirstIndexOf(s[..6], '@') == 1;
    assert !MatchesBody(s[..6]);
    assert FirstIndexOf("a@b", '@') == 1;
    assert FirstIndexOf("a b@c.d", '@') == 3;
    assert "a b@c.d"[..3][1] == ' ' && !PlainChar(' ');
  }

  // ---------------------------------------------------------------------
  // create_payment_link

  datatype PaymentLinkDetails = PaymentLinkDetails(
    paymentLinkId: string, paymentUrl: string, amount: real, currency: string,
    customerEmail: string, roNumber: string, expiresAt: string, status: string)

  const MaxAmount: real := 999999999.0

  /** `int(amount)` for a positive amount. */
  function TruncatePositive(amount: real): (n: nat)
    requires amount > 0.0
    ensures n as real <= amount < n as real + 1.0
  {
    amount.Floor
  }

  /** Checks the e-mail first, then the amount range (0, 999999999]. `currency`
      is None when the caller leaves the parameter at its default "INR". */
  function CreatePaymentLink(roNumber: string, amount: real, customerEmail: string, currency: Option<string>)
    : (r: ToolResponse<PaymentLinkDetails>)
    ensures r.tool == "create_payment_link"
    ensures !MatchesEmailPattern(customerEmail) ==>
      r == ToolFailure("create_payment_link", "Invalid Email", "Valid customer email is required", None)
    ensures MatchesEmailPattern(customerEmail) && (amount <= 0.0 || amount > MaxAmount) ==>
      r == ToolFailure("create_payment_link", "Invalid Amount",
                       "Payment amount must be between 0 and 999999999", None)
    ensures r.ToolSuccess? <==> MatchesEmailPattern(customerEmail) && 0.0 < amount <= MaxAmount
    ensures r.ToolSuccess? ==>
      && r.result.paymentLinkId == "PL_" + roNumber + "_" + NatToString(TruncatePositive(amount))
      && r.result.paymentUrl == "https://payments.cacargroup.com/pay/" + r.result.paymentLinkId
      && r.result.status == "ACTIVE"
      && r.result.amount == amount && r.result.customerEmail == customerEmail
      && r.result.roNumber == roNumber
      && r.result.currency == (if currency.Some? then currency.value else "INR")
      && r.mcpServer == "payment-server-3002"
  {
    if !MatchesEmailPattern(customerEmail) then
      ToolFailure("create_payment_link", "Invalid Email", "Valid customer email is required", None)
    else if amount <= 0.0 || amount > MaxAmount then
      ToolFailure("create_payment_link", "Invalid Amount",
                  "Payment amount must be between 0 and 999999999", None)
    else
      var id := "PL_" + roNumber + "_" + NatToString(TruncatePositive(amount));
      ToolSuccess("create_payment_link",
        PaymentLinkDetails(id, "https://payments.cacargroup.com/pay/" + id, amount,
                           if currency.Some? then currency.value else "INR",
                           customerEmail, roNumber, "2025-01-16T10:30:00Z", "ACTIVE"),
        StubTimestamp, "payment-server-3002")
  }

  lemma PlanEmailValid()
    ensures MatchesEmailPattern("abc@gmail.com")
  {
    var l, d, e := "abc", "gmail", "com";
    assert PlainRun(l) && PlainRun(d) && PlainRun(e);
    assert "abc@gmail.com" == l + "@" + d + "." + e;
    MatchesEmailPatternIffValid("abc@gmail.com");
  }

  /** The plan's payment step (RO_001, 100.0, abc@gmail.com, USD) succeeds
      with link id "PL_RO_001_100". */
  lemma PlanPaymentStepSucceeds()
    ensures var r := CreatePaymentLink("RO_001", 100.0, "abc@gmail.com", Some("USD"));
      r.ToolSuccess? && r.result.paymentLinkId == "PL_RO_001_100" && r.result.currency == "USD"
  {
    PlanEmailValid();
    PlanLinkId("abc@gmail.com");
  }

  /** Any successful link for RO_001 and 100.0 gets the id "PL_RO_001_100". */
  lemma PlanLinkId(email: string)
    ensures var r := CreatePaymentLink("RO_001", 100.0, email, Some("USD"));
      r.ToolSuccess? ==> r.result.paymentLinkId == "PL_RO_001_100"
  {
    LinkIdOfHundred();
  }

  lemma LinkIdOfHundred()
    ensures "PL_RO_001_" + NatToString(TruncatePositive(100.0)) == "PL_RO_001_100"
  {
    assert TruncatePositive(100.0) == 100;
    assert NatToString(10) == "10";
    assert NatToString(100) == "100";
  }

  // ---------------------------------------------------------------------
  // Wiring

  /** Module-level construction: triage first with no handoffs and the planning
      tool, then the three specialists pointing back at triage, then triage's
      handoffs are filled in. */
  method CreateAutomotiveAgents() returns (triage: Agent, repairOrders: Agent, parts: Agent, payment: Agent)
    ensures fresh(triage) && fresh(repairOrders) && fresh(parts) && fresh(payment)
    ensures triage.handoffs == [repairOrders, parts, payment]
    ensures repairOrders.handoffs == [triage] && parts.handoffs == [triage] && payment.handoffs == [triage]
    ensures triage.tools == ["analyze_multi_domain_request"]
    ensures repairOrders.tools == ["get_repair_order_details", "add_part_to_repair_order"]
    ensures parts.tools == ["get_part_by_number"] && payment.tools == ["create_payment_link"]
  {
    triage := new Agent("Automotive Triage Agent", PlainText, ["analyze_multi_domain_request"], []);
    repairOrders := new Agent("Repair Orders Specialist", PlainText,
                              ["get_repair_order_details", "add_part_to_repair_order"], [triage]);
    parts := new Agent("Parts Specialist", PlainText, ["get_part_by_number"], [triage]);
    payment := new Agent("Payment Specialist", PlainText, ["create_payment_link"], [triage]);
    triage.SetHandoffs([repairOrders, parts, payment]);
  }
}
