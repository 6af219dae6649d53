/** MultitenancyFilter in both services: which paths skip tenant validation,
    how the three mandatory headers are validated, and what one pass of
    doFilter does with the context slot and the rest of the chain. */
module MultitenancyFilters {
  import opened Common
  import opened TenantContexts
  import opened ContextProviders

  const TenantHeader: string := "X-Tenant-Id"
  const DealerHeader: string := "X-Dealer-Id"
  const UserHeader: string := "X-User-Id"
  const MaxHeaderLength: nat := 50
  const ErrorCode: string := "MT001"
  const BadRequest: int := 400
  const ValidationFailed: string := "Tenant Validation Failed"

  // ---------------------------------------------------------------------
  // Excluded paths

  /** The nine substrings both services test. */
  predicate ExcludedBySubstring(uri: string) {
    || Contains(uri, "/actuator") || Contains(uri, "/health") || Contains(uri, "/swagger")
    || Contains(uri, "/v3/api-docs") || Contains(uri, "/api-docs") || Contains(uri, "/swagger-ui")
    || Contains(uri, "/swagger-resources") || Contains(uri, "/webjars") || Contains(uri, "/h2-console")
  }

  predicate IsPartExcludedPath(uri: string) {
    ExcludedBySubstring(uri) || IsSuffix("/parts/health", uri)
  }

  predicate IsRoExcludedPath(uri: string) {
    ExcludedBySubstring(uri) || IsSuffix("/repair-orders/health", uri)
  }

  /** The six substrings that decide exclusion: the other three and both
      health suffixes contain one of them. */
  predicate ExcludedCore(uri: string) {
    || Contains(uri, "/actuator") || Contains(uri, "/health") || Contains(uri, "/swagger")
    || Contains(uri, "/api-docs") || Contains(uri, "/webjars") || Contains(uri, "/h2-console")
  }

  lemma LiteralContains(s: string, sub: string, i: nat)
    requires i + |sub| <= |s| && s[i..i + |sub|] == sub
    ensures Contains(s, sub)
  {
    OccursContains(s, sub, i);
  }

  lemma ApiDocsInV3()
    ensures Contains("/v3/api-docs", "/api-docs")
  {
    LiteralContains("/v3/api-docs", "/api-docs", 3);
  }

  lemma SwaggerInSwaggerUi()
    ensures Contains("/swagger-ui", "/swagger")
  {
    LiteralContains("/swagger-ui", "/swagger", 0);
  }

  lemma SwaggerInSwaggerResources()
    ensures Contains("/swagger-resources", "/swagger")
  {
    LiteralContains("/swagger-resources", "/swagger", 0);
  }

  lemma HealthInPartsHealth()
    ensures Contains("/parts/health", "/health")
  {
    LiteralContains("/parts/health", "/health", 6);
  }

  lemma HealthInRepairOrdersHealth()
    ensures Contains("/repair-orders/health", "/health")
  {
    LiteralContains("/repair-orders/health", "/health", 14);
  }

  /** The longer patterns of the exclusion lists contain shorter ones. */
  lemma {:induction false} RedundantPatterns()
    ensures Contains("/v3/api-docs", "/api-docs")
    ensures Contains("/swagger-ui", "/swagger")
    ensures Contains("/swagger-resources", "/swagger")
    ensures Contains("/parts/health", "/health")
    ensures Contains("/repair-orders/health", "/health")
  {
    ApiDocsInV3();
    SwaggerInSwaggerUi();
    SwaggerInSwaggerResources();
    HealthInPartsHealth();
    HealthInRepairOrdersHealth();
  }

  /** A URI is excluded by a substring test exactly when it contains one of
      the six core substrings. */
  lemma {:induction false} SubstringExclusionIsCore(uri: string)
    ensures ExcludedBySubstring(uri) <==> ExcludedCore(uri)
  {
    RedundantPatterns();
    if Contains(uri, "/v3/api-docs") {
      ContainsTransitive(uri, "/v3/api-docs", "/api-docs");
    }
    if Contains(uri, "/swagger-ui") {
      ContainsTransitive(uri, "/swagger-ui", "/swagger");
    }
    if Contains(uri, "/swagger-resources") {
      ContainsTransitive(uri, "/swagger-resources", "/swagger");
    }
  }

  /** Any URI containing "/health" is excluded, so the suffix tests add
      nothing: both services exclude exactly the same paths. */
  lemma {:induction false} ExcludedPathsAgree(uri: string)
    ensures IsPartExcludedPath(uri) <==> ExcludedCore(uri)
    ensures IsRoExcludedPath(uri) <==> ExcludedCore(uri)
    ensures Contains(uri, "/health") ==> IsPartExcludedPath(uri) && IsRoExcludedPath(uri)
  {
    SubstringExclusionIsCore(uri);
    RedundantPatterns();
    if IsSuffix("/parts/health", uri) {
      SuffixContained(uri, "/parts/health");
      ContainsTransitive(uri, "/parts/health", "/health");
    }
    if IsSuffix("/repair-orders/health", uri) {
      SuffixContained(uri, "/repair-orders/health");
      ContainsTransitive(uri, "/repair-orders/health", "/health");
    }
  }

  // ---------------------------------------------------------------------
  // Header validation in the part service: `trim().isEmpty()`, then lengths

  /** Null, or nothing left after `trim()`. */
  predicate TrimBlank(s: Option<string>) {
    s.None? || TrimIsEmpty(s.value)
  }

  function MissingMessage(header: string): string {
    "Missing or empty " + header + " header"
  }

  function TooLongMessage(header: string): string {
    header + " header too long (max " + NatToString(MaxHeaderLength) + " characters)"
  }

  /** A presence message is never a length message. */
  lemma MissingIsNotTooLong(h: string, h2: string)
    requires |h2| > 0 && h2[0] == 'X'
    ensures MissingMessage(h) != TooLongMessage(h2)
  {
    assert MissingMessage(h)[0] == 'M';
    assert TooLongMessage(h2)[0] == 'X';
  }

  /** A present header no longer than the limit. */
  predicate WithinLimit(s: Option<string>) {
    s.Some? && |s.value| <= MaxHeaderLength
  }

  predicate PartHeadersAcceptable(t: Option<string>, d: Option<string>, u: Option<string>) {
    && !TrimBlank(t) && !TrimBlank(d) && !TrimBlank(u)
    && WithinLimit(t) && WithinLimit(d) && WithinLimit(u)
  }

  /** validateHeaders: null when all pass, else the first failure's message,
      the three presence checks before the three length checks. */
  function ValidatePartHeaders(t: Option<string>, d: Option<string>, u: Option<string>): (r: Option<string>)
    ensures r.None? <==> PartHeadersAcceptable(t, d, u)
    ensures TrimBlank(t) ==> r == Some(MissingMessage(TenantHeader))
    ensures !TrimBlank(t) && TrimBlank(d) ==> r == Some(MissingMessage(DealerHeader))
    ensures !TrimBlank(t) && !TrimBlank(d) && TrimBlank(u) ==> r == Some(MissingMessage(UserHeader))
    ensures r.Some? && r.value in {TooLongMessage(TenantHeader), TooLongMessage(DealerHeader),
                                   TooLongMessage(UserHeader)} ==>
      !TrimBlank(t) && !TrimBlank(d) && !TrimBlank(u)
    ensures !TrimBlank(t) && !TrimBlank(d) && !TrimBlank(u) && |t.value| > MaxHeaderLength
      ==> r == Some(TooLongMessage(TenantHeader))
    ensures !TrimBlank(t) && !TrimBlank(d) && !TrimBlank(u)
      && |t.value| <= MaxHeaderLength && |d.value| > MaxHeaderLength
      ==> r == Some(TooLongMessage(DealerHeader))
    ensures !TrimBlank(t) && !TrimBlank(d) && !TrimBlank(u)
      && |t.value| <= MaxHeaderLength && |d.value| <= MaxHeaderLength && |u.value| > MaxHeaderLength
      ==> r == Some(TooLongMessage(UserHeader))
  {
    MissingIsNotTooLong(TenantHeader, TenantHeader);
    MissingIsNotTooLong(DealerHeader, TenantHeader);
    MissingIsNotTooLong(UserHeader, TenantHeader);
    MissingIsNotTooLong(TenantHeader, DealerHeader);
    MissingIsNotTooLong(DealerHeader, DealerHeader);
    MissingIsNotTooLong(UserHeader, DealerHeader);
    MissingIsNotTooLong(TenantHeader, UserHeader);
    MissingIsNotTooLong(DealerHeader, UserHeader);
    MissingIsNotTooLong(UserHeader, UserHeader);
    if TrimBlank(t) then Some(MissingMessage(TenantHeader))
    else if TrimBlank(d) then Some(MissingMessage(DealerHeader))
    else if TrimBlank(u) then Some(MissingMessage(UserHeader))
    else if |t.value| > MaxHeaderLength then Some(TooLongMessage(TenantHeader))
    else if |d.value| > MaxHeaderLength then Some(TooLongMessage(DealerHeader))
    else if |u.value| > MaxHeaderLength then Some(TooLongMessage(UserHeader))
    else None
  }

  /** Exactly 50 characters pass; 51 do not. */
  lemma {:induction false} LengthLimitIsInclusive(t: string, d: string, u: string)
    requires !TrimBlank(Some(t)) && !TrimBlank(Some(d)) && !TrimBlank(Some(u))
    requires |d| <= 50 && |u| <= 50
    ensures |t| == 50 ==> ValidatePartHeaders(Some(t), Some(d), Some(u)).None?
    ensures |t| == 51 ==> ValidatePartHeaders(Some(t), Some(d), Some(u)) == Some(TooLongMessage(TenantHeader))
  {
  }

  // ---------------------------------------------------------------------
  // Header validation in the repair-order service: `hasText`, then lengths

  datatype ValidationResult = ValidationResult(valid: bool, errorMessage: Option<string>)

  function Valid(): (r: ValidationResult)
    ensures r.valid && r.errorMessage.None?
  {
    ValidationResult(true, None)
  }

  function Invalid(message: string): (r: ValidationResult)
    ensures !r.valid && r.errorMessage == Some(message)
  {
    ValidationResult(false, Some(message))
  }

  const TooLongCombined: string := "Header values exceed maximum length of 50 characters"

  predicate RoHeadersAcceptable(t: Option<string>, d: Option<string>, u: Option<string>) {
    && HasText(t) && HasText(d) && HasText(u)
    && WithinLimit(t) && WithinLimit(d) && WithinLimit(u)
  }

  function ValidateRoHeaders(t: Option<string>, d: Option<string>, u: Option<string>): (r: ValidationResult)
    ensures r.valid <==> RoHeadersAcceptable(t, d, u)
    ensures r.valid <==> r.errorMessage.None?
    ensures !HasText(t) ==> r == Invalid(MissingMessage(TenantHeader))
    ensures HasText(t) && !HasText(d) ==> r == Invalid(MissingMessage(DealerHeader))
    ensures HasText(t) && HasText(d) && !HasText(u) ==> r == Invalid(MissingMessage(UserHeader))
    ensures HasText(t) && HasText(d) && HasText(u) && !r.valid ==> r == Invalid(TooLongCombined)
  {
    if !HasText(t) then Invalid(MissingMessage(TenantHeader))
    else if !HasText(d) then Invalid(MissingMessage(DealerHeader))
    else if !HasText(u) then Invalid(MissingMessage(UserHeader))
    else if |t.value| > 50 || |d.value| > 50 || |u.value| > 50 then Invalid(TooLongCombined)
    else Valid()
  }

  // ---------------------------------------------------------------------
  // The two notions of blank

  predicate PrintableAscii(s: Option<string>) {
    s.None? || forall i :: 0 <= i < |s.value| ==> ' ' <= s.value[i] <= '~'
  }

  /** On printable ASCII, `trim().isEmpty()` and `!hasText` agree. */
  lemma {:induction false} BlankNotionsAgree(s: Option<string>)
    requires PrintableAscii(s)
    ensures TrimBlank(s) <==> !HasText(s)
  {
    if s.Some? {
      if TrimBlank(s) {
        forall i | 0 <= i < |s.value| ensures JavaIsWhitespace(s.value[i]) {
          assert s.value[i] == ' ';
        }
      }
      if !HasText(s) {
        forall i | 0 <= i < |s.value| ensures s.value[i] <= ' ' {
          assert JavaIsWhitespace(s.value[i]);
        }
      }
    }
  }

  /** On printable ASCII headers the two services accept the same requests. */
  lemma {:induction false} ValidatorsAgreeOnPrintable(t: Option<string>, d: Option<string>, u: Option<string>)
    requires PrintableAscii(t) && PrintableAscii(d) && PrintableAscii(u)
    ensures ValidatePartHeaders(t, d, u).None? <==> ValidateRoHeaders(t, d, u).valid
  {
    BlankNotionsAgree(t);
    BlankNotionsAgree(d);
    BlankNotionsAgree(u);
  }

  /** Outside ASCII they differ: a NUL tenant id is blank to `trim` but text
      to `hasText`; an em space is the reverse. */
  lemma {:induction false} ValidatorsDisagree(nul: string, em: string)
    requires nul == "\0" && em == "\U{2003}"
    ensures ValidatePartHeaders(Some(nul), Some("d"), Some("u")) == Some(MissingMessage(TenantHeader))
    ensures ValidateRoHeaders(Some(nul), Some("d"), Some("u")).valid
    ensures ValidatePartHeaders(Some(em), Some("d"), Some("u")).None?
    ensures ValidateRoHeaders(Some(em), Some("d"), Some("u")) == Invalid(MissingMessage(TenantHeader))
  {
    assert !JavaIsWhitespace(nul[0]);
    assert HasText(Some("d")) by { assert !JavaIsWhitespace("d"[0]); }
    assert HasText(Some("u")) by { assert !JavaIsWhitespace("u"[0]); }
    assert !TrimIsEmpty("d") by { assert "d"[0] > ' '; }
    assert !TrimIsEmpty("u") by { assert "u"[0] > ' '; }
    assert !TrimIsEmpty(em) by { assert em[0] > ' '; }
    assert !HasText(Some(em)) by {
      assert forall i :: 0 <= i < |em| ==> JavaIsWhitespace(em[i]);
    }
  }

  // ---------------------------------------------------------------------
  // doFilter

  /** The parts of the request the filter reads. */
  datatype HttpRequest = HttpRequest(
    uri: string,
    tenantId: Option<string>,
    dealerId: Option<string>,
    userId: Option<string>,
    locale: Option<string>)

  /** The 400 body: error, message and code (the timestamp is left out). */
  datatype ErrorResponse = ErrorResponse(status: int, error: string, message: string, code: string)

  /** What one pass produces: either the rest of the chain ran, seeing the
      context the slot held at that moment, or an error response was sent. */
  datatype FilterOutcome =
    | ChainInvoked(contextSeen: Option<TenantContext>)
    | ErrorSent(response: ErrorResponse)

  function Rejection(message: string): ErrorResponse {
    ErrorResponse(BadRequest, ValidationFailed, message, ErrorCode)
  }

  /** The part service's doFilter, as a function of the request and of the
      slot's prior content. */
  function PartFilterOutcome(req: HttpRequest, before: Option<TenantContext>): (out: FilterOutcome)
    ensures out.ErrorSent? <==> !IsPartExcludedPath(req.uri) && !PartHeadersAcceptable(req.tenantId, req.dealerId, req.userId)
    ensures out.ErrorSent? ==> out.response.status == BadRequest && out.response.code == ErrorCode
    ensures !IsPartExcludedPath(req.uri) && out.ChainInvoked? ==>
      out.contextSeen == Some(NewTenantContext(req.tenantId, req.dealerId, req.userId, req.locale))
    ensures IsPartExcludedPath(req.uri) ==> out == ChainInvoked(before)
  {
    if IsPartExcludedPath(req.uri) then ChainInvoked(before)
    else
      var err := ValidatePartHeaders(req.tenantId, req.dealerId, req.userId);
      if err.Some? then ErrorSent(Rejection(err.value))
      else ChainInvoked(Some(NewTenantContext(req.tenantId, req.dealerId, req.userId, req.locale)))
  }

  function RoFilterOutcome(req: HttpRequest, before: Option<TenantContext>): (out: FilterOutcome)
    ensures out.ErrorSent? <==> !IsRoExcludedPath(req.uri) && !RoHeadersAcceptable(req.tenantId, req.dealerId, req.userId)
    ensures out.ErrorSent? ==> out.response.status == BadRequest && out.response.code == ErrorCode
    ensures !IsRoExcludedPath(req.uri) && out.ChainInvoked? ==>
      out.contextSeen == Some(NewTenantContext(req.tenantId, req.dealerId, req.userId, req.locale))
    ensures IsRoExcludedPath(req.uri) ==> out == ChainInvoked(before)
  {
    if IsRoExcludedPath(req.uri) then ChainInvoked(before)
    else
      var v := ValidateRoHeaders(req.tenantId, req.dealerId, req.userId);
      if !v.valid then ErrorSent(Rejection(v.errorMessage.value))
      else ChainInvoked(Some(NewTenantContext(req.tenantId, req.dealerId, req.userId, req.locale)))
  }

  /** A context the chain sees on a validated path carries valid ids: the
      chain never runs under a context with a blank or over-long id. */
  lemma {:induction false} ChainContextIsValidated(req: HttpRequest, before: Option<TenantContext>)
    requires !IsPartExcludedPath(req.uri)
    ensures var out := PartFilterOutcome(req, before);
      out.ChainInvoked? ==>
        && out.contextSeen.Some?
        && !TrimBlank(out.contextSeen.value.tenantId)
        && !TrimBlank(out.contextSeen.value.dealerId)
        && !TrimBlank(out.contextSeen.value.userId)
        && WithinLimit(out.contextSeen.value.tenantId)
        && WithinLimit(out.contextSeen.value.dealerId)
        && WithinLimit(out.contextSeen.value.userId)
  {
    var out := PartFilterOutcome(req, before);
    if out.ChainInvoked? {
      assert PartHeadersAcceptable(req.tenantId, req.dealerId, req.userId);
    }
  }

  /** doFilter in the part service: the chain runs under the new context,
      and the finally block clears the slot on every exit. */
  method PartDoFilter(slot: PartContextSlot, req: HttpRequest) returns (out: FilterOutcome)
    modifies slot
    ensures out == PartFilterOutcome(req, old(slot.context))
    ensures slot.context.None?
  {
    if IsPartExcludedPath(req.uri) {
      out := ChainInvoked(slot.GetContext());
      slot.ClearContext();
      return;
    }
    var err := ValidatePartHeaders(req.tenantId, req.dealerId, req.userId);
    if err.Some? {
      out := ErrorSent(Rejection(err.value));
      slot.ClearContext();
      return;
    }
    var ctx := NewTenantContext(req.tenantId, req.dealerId, req.userId, req.locale);
    slot.SetContext(Some(ctx));
    out := ChainInvoked(slot.GetContext());
    slot.ClearContext();
  }

  method RoDoFilter(slot: RoContextSlot, req: HttpRequest) returns (out: FilterOutcome)
    modifies slot
    ensures out == RoFilterOutcome(req, old(slot.context))
    ensures slot.context.None?
  {
    if IsRoExcludedPath(req.uri) {
      out := ChainInvoked(slot.GetContext());
      slot.ClearContext();
      return;
    }
    var v := ValidateRoHeaders(req.tenantId, req.dealerId, req.userId);
    if !v.valid {
      out := ErrorSent(Rejection(v.errorMessage.value));
      slot.ClearContext();
      return;
    }
    var ctx := NewTenantContext(req.tenantId, req.dealerId, req.userId, req.locale);
    slot.SetContext(Some(ctx));
    out := ChainInvoked(slot.GetContext());
    slot.ClearContext();
  }
}
