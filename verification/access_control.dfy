/**
 * Tenant access guards (lib/access-control.ts): pure decisions on whether a
 * session context `{user, activeStore}` may read or write a record owned by
 * a given store.
 */
module AccessControl {
  import opened Wrappers
  import opened Types

  /** The session as seen by the guards. */
  datatype Context = Context(user: Option<User>, activeStore: Option<Store>)

  datatype AccessError =
    | Unauthenticated     // no user logged in
    | NoActiveStore       // no store selected
    | CrossTenantAccess   // record belongs to another store
    | InvalidContext      // user or store missing when writing
    | CrossTenantWrite    // written record names another store

  /** Outcome of `validateStoreAccess`. */
  datatype Access = Granted | Denied(error: AccessError)

  /** Outcome of `enforceStoreId`: the record to persist, or why not. */
  datatype Checked<T> = Accepted(data: T) | Rejected(error: AccessError)

  predicate IsSuperAdmin(u: User) {
    u.role == SuperAdmin
  }

  /** `canAccessStore`: super admins reach every store, others only the one they are bound to. */
  function CanAccessStore(user: Option<User>, storeId: string): (r: bool)
    ensures r ==> user.Some?
    ensures r <==> user.Some? && (IsSuperAdmin(user.value) || user.value.storeId == Some(storeId))
  {
    match user
    case None => false
    case Some(u) => if u.role == SuperAdmin then true else u.storeId == Some(storeId)
  }

  /** `isAdmin`. */
  function IsAdmin(user: Option<User>): (r: bool)
    ensures r <==> user.Some? && user.value.role == SuperAdmin
  {
    match user
    case None => false
    case Some(u) => u.role == SuperAdmin
  }

  /** `hasRole`: the user exists and its role is one of `roles`. */
  function HasRole(user: Option<User>, roles: seq<Role>): (r: bool)
    ensures r <==> user.Some? && user.value.role in roles
  {
    match user
    case None => false
    case Some(u) => u.role in roles
  }

  /**
   * `validateStoreAccess`: a user and an active store are both required (even
   * for a super admin); then super admins pass and everyone else passes only
   * for records of the active store.
   */
  function ValidateStoreAccess(storeId: string, ctx: Context): (r: Access)
    ensures ctx.user.None? ==> r == Denied(Unauthenticated)
    ensures ctx.user.Some? && ctx.activeStore.None? ==> r == Denied(NoActiveStore)
    ensures r.Denied? ==> r.error in {Unauthenticated, NoActiveStore, CrossTenantAccess}
  {
    if ctx.user.None? then Denied(Unauthenticated)
    else if ctx.activeStore.None? then Denied(NoActiveStore)
    else if ctx.user.value.role == SuperAdmin then Granted
    else if storeId != ctx.activeStore.value.id then Denied(CrossTenantAccess)
    else Granted
  }

  /**
   * `enforceStoreId`: validates the record's owning store against the
   * context and hands the record back unchanged; it never rewrites `storeId`.
   */
  function EnforceStoreId<T>(data: T, storeIdOf: T -> string, ctx: Context): (r: Checked<T>)
    ensures ctx.user.None? || ctx.activeStore.None? ==> r == Rejected(InvalidContext)
    ensures r.Accepted? ==> r.data == data
    ensures r.Rejected? ==> r.error in {InvalidContext, CrossTenantWrite}
  {
    if ctx.user.None? || ctx.activeStore.None? then Rejected(InvalidContext)
    else if ctx.user.value.role == SuperAdmin then Accepted(data)
    else if storeIdOf(data) != ctx.activeStore.value.id then Rejected(CrossTenantWrite)
    else Accepted(data)
  }

  /** `canModifyRecord`: needs a user; super admins always, others only inside the active store. */
  function CanModifyRecord(recordStoreId: string, ctx: Context): (r: bool)
    ensures r ==> ctx.user.Some?
    ensures ctx.user.Some? && IsSuperAdmin(ctx.user.value) ==> r
    ensures ctx.user.Some? && !IsSuperAdmin(ctx.user.value) ==>
              (r <==> ctx.activeStore.Some? && ctx.activeStore.value.id == recordStoreId)
  {
    if ctx.user.None? then false
    else if ctx.user.value.role == SuperAdmin then true
    else ctx.activeStore.Some? && ctx.activeStore.value.id == recordStoreId
  }

  /** `canDeleteRecord`: deliberately the same policy as modification. */
  function CanDeleteRecord(recordStoreId: string, ctx: Context): (r: bool)
    ensures r <==> ctx.user.Some? && (IsSuperAdmin(ctx.user.value) ||
                                      (ctx.activeStore.Some? && ctx.activeStore.value.id == recordStoreId))
  {
    CanModifyRecord(recordStoreId, ctx)
  }

  // ---------------------------------------------------------------------------
  // Properties relating the guards

  /** With a full context, a non-admin passes `validateStoreAccess` exactly for records of the active store. */
  lemma ValidateForTenant(storeId: string, u: User, s: Store)
    requires u.role != SuperAdmin
    ensures ValidateStoreAccess(storeId, Context(Some(u), Some(s))).Granted? <==> storeId == s.id
    ensures storeId != s.id ==> ValidateStoreAccess(storeId, Context(Some(u), Some(s))) == Denied(CrossTenantAccess)
  {
  }

  /** A super admin with an active store passes `validateStoreAccess` and `enforceStoreId` for any store. */
  lemma SuperAdminPasses<T>(storeId: string, data: T, storeIdOf: T -> string, u: User, s: Store)
    requires u.role == SuperAdmin
    ensures ValidateStoreAccess(storeId, Context(Some(u), Some(s))) == Granted
    ensures EnforceStoreId(data, storeIdOf, Context(Some(u), Some(s))) == Accepted(data)
  {
  }

  /**
   * `enforceStoreId` accepts exactly when `validateStoreAccess` grants access
   * to the record's store; they differ only in the error reported.
   */
  lemma EnforceAgreesWithValidate<T>(data: T, storeIdOf: T -> string, ctx: Context)
    ensures EnforceStoreId(data, storeIdOf, ctx).Accepted? <==> ValidateStoreAccess(storeIdOf(data), ctx).Granted?
  {
  }

  /** A record whose owner is forced to the active store always passes `enforceStoreId`. */
  lemma EnforceAcceptsActiveStore<T>(data: T, storeIdOf: T -> string, u: User, s: Store)
    requires storeIdOf(data) == s.id
    ensures EnforceStoreId(data, storeIdOf, Context(Some(u), Some(s))) == Accepted(data)
  {
  }

  /**
   * `validateStoreAccess` grants exactly what `canModifyRecord` allows when a
   * store is selected; so granted access implies modification rights.
   */
  lemma ValidateIsModifyWithStore(recordStoreId: string, ctx: Context)
    ensures ValidateStoreAccess(recordStoreId, ctx).Granted? <==>
            CanModifyRecord(recordStoreId, ctx) && ctx.activeStore.Some?
  {
  }

  /** The converse fails: a super admin with no active store may modify but is denied access. */
  lemma ModifyWithoutValidate(recordStoreId: string, u: User)
    requires u.role == SuperAdmin
    ensures CanModifyRecord(recordStoreId, Context(Some(u), None))
    ensures ValidateStoreAccess(recordStoreId, Context(Some(u), None)) == Denied(NoActiveStore)
  {
  }

  /** For a non-admin bound to the active store, store access and record modification coincide. */
  lemma AccessMatchesModifyForBoundUser(storeId: string, u: User, s: Store)
    requires u.role != SuperAdmin && u.storeId == Some(s.id)
    ensures CanAccessStore(Some(u), storeId) <==> CanModifyRecord(storeId, Context(Some(u), Some(s)))
  {
  }
}
