/** TenantContext, the immutable per-request record both services build from
    the tenant headers, with the part service's equals and hashCode. */
module TenantContexts {
  import opened Common

  const DefaultLocale: string := "en-US"

  /** The four final fields; the ids are stored as given, possibly null. */
  datatype TenantContext = TenantContext(
    tenantId: Option<string>,
    dealerId: Option<string>,
    userId: Option<string>,
    locale: string)

  datatype NullPointer = NullPointerException

  /** The constructor: a null locale becomes "en-US". */
  function NewTenantContext(tenantId: Option<string>, dealerId: Option<string>, userId: Option<string>,
                            locale: Option<string>): (c: TenantContext)
    ensures c.tenantId == tenantId && c.dealerId == dealerId && c.userId == userId
    ensures locale.Some? ==> c.locale == locale.value
    ensures locale.None? ==> c.locale == DefaultLocale
  {
    TenantContext(tenantId, dealerId, userId, if locale.Some? then locale.value else DefaultLocale)
  }

  /** `s1.equals(s2)` for a receiver that may be null. */
  function StringEquals(s: Option<string>, other: Option<string>): (r: Result<bool, NullPointer>)
    ensures s.None? <==> r.Failure?
    ensures r.Success? ==> (r.value <==> other == s)
  {
    if s.None? then Failure(NullPointerException) else Success(other == s)
  }

  predicate IdsPresent(c: TenantContext) {
    c.tenantId.Some? && c.dealerId.Some? && c.userId.Some?
  }

  /** equals: the same object is equal to itself; null is unequal; otherwise
      the four fields are compared in order with `String.equals`, which
      throws on a null id of the receiver reached before a mismatch. */
  function ContextEquals(a: TenantContext, b: Option<TenantContext>, sameObject: bool): (r: Result<bool, NullPointer>)
    requires sameObject ==> b == Some(a)
    ensures IdsPresent(a) ==> r == Success(b == Some(a))
    ensures r == Success(true) ==> b == Some(a)
  {
    if sameObject then Success(true)
    else if b.None? then Success(false)
    else
      var o := b.value;
      var t := StringEquals(a.tenantId, o.tenantId);
      if t != Success(true) then t
      else
        var d := StringEquals(a.dealerId, o.dealerId);
        if d != Success(true) then d
        else
          var u := StringEquals(a.userId, o.userId);
          if u != Success(true) then u
          else Success(a.locale == o.locale)
  }

  /** String.hashCode: `h = 31 * h + c` over the characters, in int
      arithmetic. */
  function StringHash(s: string): (h: int)
    ensures IsJavaInt(h)
    decreases |s|
  {
    if |s| == 0 then 0 else WrapInt(31 * StringHash(s[..|s| - 1]) + s[|s| - 1] as int)
  }

  /** hashCode: `31 * result + field.hashCode()` over the four fields; a null
      id throws. */
  function ContextHash(c: TenantContext): (r: Result<int, NullPointer>)
    ensures r.Success? <==> IdsPresent(c)
    ensures r.Success? ==> IsJavaInt(r.value)
  {
    if !IdsPresent(c) then Failure(NullPointerException)
    else
      var h1 := StringHash(c.tenantId.value);
      var h2 := WrapInt(31 * h1 + StringHash(c.dealerId.value));
      var h3 := WrapInt(31 * h2 + StringHash(c.userId.value));
      Success(WrapInt(31 * h3 + StringHash(c.locale)))
  }

  /** equals is reflexive and symmetric on contexts with all ids. */
  lemma EqualsReflexiveSymmetric(a: TenantContext, b: TenantContext)
    requires IdsPresent(a) && IdsPresent(b)
    ensures ContextEquals(a, Some(a), false) == Success(true)
    ensures ContextEquals(a, Some(b), false) == ContextEquals(b, Some(a), false)
  {
  }

  /** Contexts that compare equal have the same hash code. */
  lemma EqualsImpliesSameHash(a: TenantContext, b: TenantContext, sameObject: bool)
    requires sameObject ==> b == a
    requires ContextEquals(a, Some(b), sameObject) == Success(true)
    ensures ContextHash(a) == ContextHash(b)
  {
  }

  /** The filter's contexts: built from the validated ids, equal exactly when
      all four inputs (after the locale default) agree. */
  lemma {:induction false} BuiltContextsEqualIff(t: string, d: string, u: string, l: Option<string>,
                                                 t2: string, d2: string, u2: string, l2: Option<string>)
    ensures var a := NewTenantContext(Some(t), Some(d), Some(u), l);
      var b := NewTenantContext(Some(t2), Some(d2), Some(u2), l2);
      ContextEquals(a, Some(b), false) == Success(t == t2 && d == d2 && u == u2 && a.locale == b.locale)
  {
    var a := NewTenantContext(Some(t), Some(d), Some(u), l);
    var b := NewTenantContext(Some(t2), Some(d2), Some(u2), l2);
    assert IdsPresent(a);
    assert (Some(b) == Some(a)) <==> (t == t2 && d == d2 && u == u2 && a.locale == b.locale);
  }

  /** A missing locale and an explicit "en-US" give the same context. */
  lemma DefaultLocaleIsExplicitEnUs(t: Option<string>, d: Option<string>, u: Option<string>)
    ensures NewTenantContext(t, d, u, None) == NewTenantContext(t, d, u, Some("en-US"))
  {
  }
}
