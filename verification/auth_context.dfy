/**
 * The session state machine (lib/auth-context.tsx): the in-memory user and
 * active store of the provider, together with the key-value store they are
 * persisted to. Every transition is a pure function from one session to the
 * next; `login` also returns a tagged result.
 */
module AuthContext {
  import opened Wrappers
  import opened Types
  import opened Seqs
  import opened Storage
  import StoreUtils

  /** The provider's state plus the persistent store. */
  datatype Session = Session(user: Option<User>, activeStore: Option<Store>, kv: Kv)

  datatype LoginError =
    | MissingCredentials   // empty email or password
    | InvalidCredentials   // no stored user with that email and password
    | StoreNotFound        // the owner's store is not in the store list
    | StoreBlocked         // the owner's store is inactive
    | StoreExpired         // the owner's store is active but past its expiry

  datatype LoginResult = LoginOk | LoginFailed(error: LoginError)

  /** The session after `login`, and what `login` returned. */
  datatype LoginStep = LoginStep(session: Session, result: LoginResult)

  /** The built-in administrator credentials, checked before any stored user. */
  const AdminEmail: string := "admin@nova.com"
  const AdminPassword: string := "admin123"

  /** The user record created for the built-in administrator at `createdAt`. */
  function AdminUser(createdAt: string): User {
    User("super_admin", AdminEmail, AdminPassword, "Super Admin", SuperAdmin, None, createdAt)
  }

  /** The first stored user whose email and password both match. */
  function FindAccount(users: seq<User>, email: string, password: string): Option<User> {
    Find(users, (u: User) => u.email == email && u.password == password)
  }

  /** The first store with the given id. */
  function FindStore(stores: seq<Store>, id: string): Option<Store> {
    Find(stores, (s: Store) => s.id == id)
  }

  /** Only store owners with a (non-empty) store id have their store checked at login. */
  predicate StoreChecked(u: User) {
    u.role == StoreOwner && Truthy(u.storeId)
  }

  /** The state before the restore effect has run. */
  function Initial(kv: Kv): Session {
    Session(None, None, kv)
  }

  /**
   * The restore effect, run once on start-up at instant `now`: brings back a
   * saved user; for non-admins, keeps the saved store only while it is
   * accessible and otherwise deletes it from storage, leaving the user logged in.
   */
  function Restore(kv: Kv, now: int): (r: Session)
    ensures r.user == GetUser(kv)
    ensures r.activeStore.Some? ==> r.user.Some? && r.user.value.role != SuperAdmin
    ensures r.activeStore.Some? ==> r.activeStore == GetActiveStore(kv) && StoreUtils.IsStoreAccessible(r.activeStore.value, now)
    ensures r.user.Some? && r.user.value.role != SuperAdmin && GetActiveStore(kv).Some?
            && !StoreUtils.IsStoreAccessible(GetActiveStore(kv).value, now)
            ==> r.kv == ClearActiveStore(kv)
    ensures r.kv == kv || r.kv == ClearActiveStore(kv)
  {
    match GetUser(kv)
    case None => Initial(kv)
    case Some(u) =>
      if u.role != SuperAdmin && GetActiveStore(kv).Some? then
        var st := GetActiveStore(kv).value;
        if StoreUtils.IsStoreAccessible(st, now) then Session(Some(u), Some(st), kv)
        else Session(Some(u), None, ClearActiveStore(kv))
      else Session(Some(u), None, kv)
  }

  /**
   * `login` at instant `now` (`nowIso` is its ISO text, stamped on the
   * administrator record). Every failure leaves the session untouched.
   */
  function Login(s: Session, email: string, password: string, now: int, nowIso: string): (r: LoginStep)
    ensures r.result.LoginFailed? ==> r.session == s
    ensures email == "" || password == "" ==> r.result == LoginFailed(MissingCredentials)
    ensures email != "" && password != "" && email == AdminEmail && password == AdminPassword ==>
              && r.result == LoginOk
              && r.session == Session(Some(AdminUser(nowIso)), s.activeStore, SetUser(s.kv, AdminUser(nowIso)))
    ensures r.result == LoginOk ==> r.session.user.Some? && GetUser(r.session.kv) == r.session.user
    ensures r.result == LoginOk && r.session.user.value.role != SuperAdmin ==>
              r.session.user == FindAccount(GetUsers(s.kv), email, password)
  {
    if email == "" || password == "" then LoginStep(s, LoginFailed(MissingCredentials))
    else if email == AdminEmail && password == AdminPassword then
      var admin := AdminUser(nowIso);
      LoginStep(Session(Some(admin), s.activeStore, SetUser(s.kv, admin)), LoginOk)
    else match FindAccount(GetUsers(s.kv), email, password)
      case None => LoginStep(s, LoginFailed(InvalidCredentials))
      case Some(u) =>
        if StoreChecked(u) then
          match FindStore(GetStores(s.kv), u.storeId.value)
          case None => LoginStep(s, LoginFailed(StoreNotFound))
          case Some(st) =>
            if !StoreUtils.IsStoreAccessible(st, now) then
              if !st.isActive then LoginStep(s, LoginFailed(StoreBlocked))
              else LoginStep(s, LoginFailed(StoreExpired))
            else
              LoginStep(Session(Some(u), Some(st), SetActiveStore(SetUser(s.kv, u), st)), LoginOk)
        else
          LoginStep(Session(Some(u), s.activeStore, SetUser(s.kv, u)), LoginOk)
  }

  /** `logout`: clears both slots, in memory and in storage. */
  function Logout(s: Session): (r: Session)
    ensures r.user.None? && r.activeStore.None?
    ensures GetUser(r.kv) == None && GetActiveStore(r.kv) == None
    ensures GetUsers(r.kv) == GetUsers(s.kv) && GetStores(r.kv) == GetStores(s.kv)
    ensures GetProducts(r.kv) == GetProducts(s.kv) && GetCustomers(r.kv) == GetCustomers(s.kv)
    ensures GetSales(r.kv) == GetSales(s.kv)
  {
    Session(None, None, ClearActiveStore(ClearUser(s.kv)))
  }

  /** `setActiveStore`: switches the tenant, persisting it, or clears the slot for `None`. */
  function SetActive(s: Session, store: Option<Store>): (r: Session)
    ensures r.user == s.user && r.activeStore == store
    ensures GetActiveStore(r.kv) == store
    ensures GetUser(r.kv) == GetUser(s.kv) && GetUsers(r.kv) == GetUsers(s.kv)
    ensures GetStores(r.kv) == GetStores(s.kv) && GetProducts(r.kv) == GetProducts(s.kv)
    ensures GetCustomers(r.kv) == GetCustomers(s.kv) && GetSales(r.kv) == GetSales(s.kv)
    ensures SameExcept(r.kv, s.kv, ActiveStoreKey)
  {
    match store
    case Some(st) => Session(s.user, store, SetActiveStore(s.kv, st))
    case None => Session(s.user, None, ClearActiveStore(s.kv))
  }

  // ---------------------------------------------------------------------------
  // Properties of the state machine

  /**
   * Login of a user that matched the credentials: a store owner with a store
   * id gets exactly one of the store outcomes, in this order of precedence.
   */
  lemma OwnerLoginOutcomes(s: Session, email: string, password: string, now: int, nowIso: string)
    requires email != "" && password != "" && !(email == AdminEmail && password == AdminPassword)
    requires FindAccount(GetUsers(s.kv), email, password).Some?
    requires StoreChecked(FindAccount(GetUsers(s.kv), email, password).value)
    ensures var u := FindAccount(GetUsers(s.kv), email, password).value;
            var st := FindStore(GetStores(s.kv), u.storeId.value);
            var r := Login(s, email, password, now, nowIso);
            && (st.None? ==> r.result == LoginFailed(StoreNotFound))
            && (st.Some? && !st.value.isActive ==> r.result == LoginFailed(StoreBlocked))
            && (st.Some? && st.value.isActive && !StoreUtils.IsStoreAccessible(st.value, now) ==>
                  r.result == LoginFailed(StoreExpired))
            && (st.Some? && StoreUtils.IsStoreAccessible(st.value, now) ==>
                  && r.result == LoginOk
                  && r.session.user == Some(u) && r.session.activeStore == st
                  && GetUser(r.session.kv) == Some(u) && GetActiveStore(r.session.kv) == st)
  {
  }

  /** Without a stored user matching both email and password (and not the admin), login fails. */
  lemma UnknownCredentialsFail(s: Session, email: string, password: string, now: int, nowIso: string)
    requires email != "" && password != "" && !(email == AdminEmail && password == AdminPassword)
    requires forall u :: u in GetUsers(s.kv) ==> !(u.email == email && u.password == password)
    ensures Login(s, email, password, now, nowIso) == LoginStep(s, LoginFailed(InvalidCredentials))
  {
  }

  /**
   * A store owner bound to store `st` logs in exactly when the credentials
   * match and `st` is accessible now.
   */
  lemma OwnerLoginIffAccessible(s: Session, email: string, password: string, now: int, nowIso: string, st: Store)
    requires email != "" && password != "" && !(email == AdminEmail && password == AdminPassword)
    requires FindAccount(GetUsers(s.kv), email, password).Some?
    requires StoreChecked(FindAccount(GetUsers(s.kv), email, password).value)
    requires FindStore(GetStores(s.kv), FindAccount(GetUsers(s.kv), email, password).value.storeId.value) == Some(st)
    ensures Login(s, email, password, now, nowIso).result == LoginOk <==> StoreUtils.IsStoreAccessible(st, now)
  {
    OwnerLoginOutcomes(s, email, password, now, nowIso);
  }

  /**
   * Managers and sellers (and owners without a store id) are not store
   * checked: they log in with the active store left as it was, even when
   * their store is blocked or expired.
   */
  lemma UncheckedRolesLogIn(s: Session, email: string, password: string, now: int, nowIso: string)
    requires email != "" && password != "" && !(email == AdminEmail && password == AdminPassword)
    requires FindAccount(GetUsers(s.kv), email, password).Some?
    requires !StoreChecked(FindAccount(GetUsers(s.kv), email, password).value)
    ensures var r := Login(s, email, password, now, nowIso);
            && r.result == LoginOk
            && r.session.user == FindAccount(GetUsers(s.kv), email, password)
            && r.session.activeStore == s.activeStore
            && GetActiveStore(r.session.kv) == GetActiveStore(s.kv)
  {
  }

  /** A successful owner login only ever selects an accessible store, the owner's own. */
  lemma LoginSelectsOwnStore(s: Session, email: string, password: string, now: int, nowIso: string)
    requires var r := Login(s, email, password, now, nowIso);
             r.result == LoginOk && StoreChecked(r.session.user.value)
    ensures var r := Login(s, email, password, now, nowIso);
            && r.session.activeStore.Some?
            && Some(r.session.activeStore.value.id) == r.session.user.value.storeId
            && StoreUtils.IsStoreAccessible(r.session.activeStore.value, now)
  {
    if !(email == AdminEmail && password == AdminPassword) {
      var u := FindAccount(GetUsers(s.kv), email, password).value;
      var st := FindStore(GetStores(s.kv), u.storeId.value);
      assert st.Some?;
    }
  }

  /** Restoring from what a successful owner login persisted gives back the same session while the store stays accessible. */
  lemma OwnerLoginSurvivesReload(s: Session, email: string, password: string, now: int, nowIso: string, later: int)
    requires var r := Login(s, email, password, now, nowIso);
             r.result == LoginOk && StoreChecked(r.session.user.value)
    requires StoreUtils.IsStoreAccessible(Login(s, email, password, now, nowIso).session.activeStore.value, later)
    ensures var r := Login(s, email, password, now, nowIso);
            Restore(r.session.kv, later) == r.session
  {
    LoginSelectsOwnStore(s, email, password, now, nowIso);
  }

  /** After logout, a reload finds nobody logged in. */
  lemma LogoutSurvivesReload(s: Session, now: int)
    ensures Restore(Logout(s).kv, now) == Initial(Logout(s).kv)
  {
  }

  /** Restoring heals stale data once: restoring again from the healed storage changes nothing. */
  lemma RestoreIdempotent(kv: Kv, now: int)
    ensures Restore(Restore(kv, now).kv, now) == Restore(kv, now)
  {
  }

  /** A super admin never gets an active store back from storage, and storage is left as it was. */
  lemma AdminRestoresWithoutStore(kv: Kv, now: int)
    requires GetUser(kv).Some? && GetUser(kv).value.role == SuperAdmin
    ensures Restore(kv, now) == Session(GetUser(kv), None, kv)
  {
  }

  /** A store selected by `setActiveStore` is restored after reload for a non-admin while it is accessible. */
  lemma SelectedStoreSurvivesReload(s: Session, st: Store, now: int)
    requires GetUser(s.kv).Some? && GetUser(s.kv).value.role != SuperAdmin
    requires StoreUtils.IsStoreAccessible(st, now)
    ensures Restore(SetActive(s, Some(st)).kv, now).activeStore == Some(st)
  {
  }
}
