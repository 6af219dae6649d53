/** ContextProvider in both services: a per-thread slot holding the current
    TenantContext. The thread-local is one object here, the slot of the
    thread serving the request. */
module ContextProviders {
  import opened Common
  import opened TenantContexts

  /** The static accessors: null ids without a context, "en-US" as the
      locale without a context. */
  function TenantIdOf(c: Option<TenantContext>): (r: Option<string>)
    ensures c.None? ==> r.None?
    ensures c.Some? ==> r == c.value.tenantId
  {
    if c.Some? then c.value.tenantId else None
  }

  function DealerIdOf(c: Option<TenantContext>): (r: Option<string>)
    ensures c.None? ==> r.None?
    ensures c.Some? ==> r == c.value.dealerId
  {
    if c.Some? then c.value.dealerId else None
  }

  function UserIdOf(c: Option<TenantContext>): (r: Option<string>)
    ensures c.None? ==> r.None?
    ensures c.Some? ==> r == c.value.userId
  {
    if c.Some? then c.value.userId else None
  }

  function LocaleOf(c: Option<TenantContext>): (r: string)
    ensures c.None? ==> r == DefaultLocale
    ensures c.Some? ==> r == c.value.locale
  {
    if c.Some? then c.value.locale else DefaultLocale
  }

  /** The locale accessor never yields null: it is the context's locale,
      itself defaulted by the constructor, or "en-US". */
  lemma LocaleAlwaysKnown(t: Option<string>, d: Option<string>, u: Option<string>, l: Option<string>)
    ensures LocaleOf(Some(NewTenantContext(t, d, u, l))) == (if l.Some? then l.value else DefaultLocale)
    ensures LocaleOf(None) == DefaultLocale
  {
  }

  /** The part service's slot: setContext stores whatever it is given. */
  class PartContextSlot {
    var context: Option<TenantContext>

    constructor ()
      ensures context.None?
    {
      context := None;
    }

    method SetContext(c: Option<TenantContext>)
      modifies this
      ensures context == c
    {
      context := c;
    }

    function GetContext(): Option<TenantContext>
      reads this
    {
      context
    }

    predicate HasContext()
      reads this
    {
      context.Some?
    }

    method ClearContext()
      modifies this
      ensures context.None?
    {
      context := None;
    }
  }

  /** The repair-order service's slot: setContext ignores null, and
      clearContext removes only a present context (the same end state). */
  class RoContextSlot {
    var context: Option<TenantContext>

    constructor ()
      ensures context.None?
    {
      context := None;
    }

    method SetContext(c: Option<TenantContext>)
      modifies this
      ensures c.Some? ==> context == c
      ensures c.None? ==> context == old(context)
    {
      if c.None? {
        return;
      }
      context := c;
    }

    function GetContext(): Option<TenantContext>
      reads this
    {
      context
    }

    predicate HasContext()
      reads this
    {
      context.Some?
    }

    method ClearContext()
      modifies this
      ensures context.None?
    {
      if context.Some? {
        context := None;
      }
    }
  }
}
