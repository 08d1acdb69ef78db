/**
 * The administrator's store management page (app/admin/stores/page.tsx):
 * the owner lookup, creating, editing and deleting stores, the search box
 * and the three status counters.
 *
 * The page keeps its own copy `stores` of the store list (loaded from
 * storage when it mounts) and writes it back after every change; the user
 * list is read from storage each time. Generated ids and the current ISO
 * stamp are parameters.
 */
module AdminStores {
  import opened Wrappers
  import opened Types
  import opened Seqs
  import opened Storage
  import opened StoreUtils

  /** The store form's fields: a store without its id and its two stamps. */
  datatype StoreData = StoreData(
    name: string,
    email: string,
    phone: Option<string>,
    address: Option<string>,
    isActive: bool,
    expiresAt: Option<int>)

  /** The owner account the creation form asks for. */
  datatype OwnerData = OwnerData(name: string, email: string, password: string)

  /** The form fields of a store. */
  function FormOf(s: Store): StoreData {
    StoreData(s.name, s.email, s.phone, s.address, s.isActive, s.expiresAt)
  }

  // ---------------------------------------------------------------------------
  // loadStoreOwners

  /** `u` is listed as the owner of store `k`: a store owner whose (non-empty) store id is `k`. */
  predicate Claims(u: User, k: string) {
    u.role == StoreOwner && Truthy(u.storeId) && u.storeId.value == k
  }

  /** `users[i]` claims store `k` and no later user does. */
  ghost predicate LastClaim(users: seq<User>, i: int, k: string) {
    0 <= i < |users| && Claims(users[i], k)
    && forall j :: i < j < |users| ==> !Claims(users[j], k)
  }

  /** `loadStoreOwners`: store id to owner, a later owner of the same store overwriting an earlier one. */
  function StoreOwners(users: seq<User>): (r: map<string, User>)
    ensures forall k :: k in r ==> Claims(r[k], k) && r[k] in users
  {
    if users == [] then map[]
    else
      var u := users[|users| - 1];
      var prev := StoreOwners(users[..|users| - 1]);
      if u.role == StoreOwner && Truthy(u.storeId) then prev[u.storeId.value := u] else prev
  }

  /** A store is listed exactly when some user claims it, and its owner is the last such user. */
  lemma StoreOwnersLastWins(users: seq<User>, k: string)
    ensures k in StoreOwners(users) <==> exists i :: 0 <= i < |users| && Claims(users[i], k)
    ensures k in StoreOwners(users) ==> exists i :: LastClaim(users, i, k) && users[i] == StoreOwners(users)[k]
  {
    StoreOwnersListed(users, k);
    StoreOwnersLast(users, k);
  }

  /** A store is listed exactly when some user claims it. */
  lemma {:induction false} StoreOwnersListed(users: seq<User>, k: string)
    ensures k in StoreOwners(users) <==> exists i :: 0 <= i < |users| && Claims(users[i], k)
    decreases |users|
  {
    if users != [] {
      var n := |users| - 1;
      var init := users[..n];
      StoreOwnersListed(init, k);
      if !Claims(users[n], k) && k !in StoreOwners(init) {
        forall i | 0 <= i < |users|
          ensures !Claims(users[i], k)
        {
          if i < n {
            assert init[i] == users[i];
          }
        }
      } else if !Claims(users[n], k) {
        var i :| 0 <= i < n && Claims(init[i], k);
        assert users[i] == init[i];
      }
    }
  }

  /** The listed owner of a store is its last claimant. */
  lemma {:induction false} StoreOwnersLast(users: seq<User>, k: string)
    ensures k in StoreOwners(users) ==> exists i :: LastClaim(users, i, k) && users[i] == StoreOwners(users)[k]
    decreases |users|
  {
    if users != [] && k in StoreOwners(users) {
      var n := |users| - 1;
      var init := users[..n];
      StoreOwnersStep(users, k);
      if Claims(users[n], k) {
        assert LastClaim(users, n, k) && users[n] == StoreOwners(users)[k];
      } else {
        StoreOwnersLast(init, k);
        var i :| LastClaim(init, i, k) && init[i] == StoreOwners(init)[k];
        forall j | i < j < |users|
          ensures !Claims(users[j], k)
        {
          if j < n {
            assert users[j] == init[j];
          }
        }
        assert users[i] == init[i];
        assert LastClaim(users, i, k) && users[i] == StoreOwners(users)[k];
      }
    }
  }

  /** One step of the lookup: the last user either claims `k` and wins, or leaves `k`'s entry alone. */
  lemma StoreOwnersStep(users: seq<User>, k: string)
    requires users != []
    ensures Claims(users[|users| - 1], k) ==> k in StoreOwners(users) && StoreOwners(users)[k] == users[|users| - 1]
    ensures !Claims(users[|users| - 1], k) ==>
              && (k in StoreOwners(users) <==> k in StoreOwners(users[..|users| - 1]))
              && (k in StoreOwners(users) ==> StoreOwners(users)[k] == StoreOwners(users[..|users| - 1])[k])
  {
  }

  // ---------------------------------------------------------------------------
  // handleCreateStore

  /** The store record built from the form, with the generated id and both stamps set to now. */
  function NewStore(data: StoreData, storeId: string, nowIso: string): (s: Store)
    ensures FormOf(s) == data && s.id == storeId && s.createdAt == nowIso && s.updatedAt == nowIso
  {
    Store(storeId, data.name, data.email, data.phone, data.address, data.isActive, data.expiresAt, nowIso, nowIso)
  }

  /** The owner account built from the form, bound to the new store. */
  function NewOwner(o: OwnerData, userId: string, storeId: string, nowIso: string): (u: User)
    ensures u.role == StoreOwner && u.storeId == Some(storeId) && WellBound(u)
    ensures u.id == userId && u.email == o.email && u.password == o.password && u.name == o.name
    ensures u.createdAt == nowIso
  {
    User(userId, o.email, o.password, o.name, StoreOwner, Some(storeId), nowIso)
  }

  /**
   * `handleCreateStore`: the page's list with the new store appended, and,
   * when owner fields were given, the stored users with the owner appended.
   */
  function CreateStore(kv: Kv, stores: seq<Store>, data: StoreData, owner: Option<OwnerData>,
                       storeId: string, userId: string, nowIso: string): (r: Kv)
    ensures |GetStores(r)| == |stores| + 1 && GetStores(r)[..|stores|] == stores
    ensures var s := GetStores(r)[|stores|];
            FormOf(s) == data && s.id == storeId && s.createdAt == nowIso && s.updatedAt == nowIso
    ensures owner.None? ==> GetUsers(r) == GetUsers(kv)
    ensures owner.Some? ==>
              && |GetUsers(r)| == |GetUsers(kv)| + 1
              && GetUsers(r)[..|GetUsers(kv)|] == GetUsers(kv)
              && GetUsers(r)[|GetUsers(kv)|] == NewOwner(owner.value, userId, storeId, nowIso)
    ensures SameOutside(r, kv, {StoresKey, UsersKey})
  {
    var k1 := SetStores(kv, stores + [NewStore(data, storeId, nowIso)]);
    if owner.Some? then SetUsers(k1, GetUsers(kv) + [NewOwner(owner.value, userId, storeId, nowIso)]) else k1
  }

  /** After creating a store with an owner, the owner lookup names that owner for the new store. */
  lemma CreatedOwnerListed(kv: Kv, stores: seq<Store>, data: StoreData, o: OwnerData,
                           storeId: string, userId: string, nowIso: string)
    requires storeId != ""
    ensures var users := GetUsers(CreateStore(kv, stores, data, Some(o), storeId, userId, nowIso));
            storeId in StoreOwners(users) && StoreOwners(users)[storeId] == NewOwner(o, userId, storeId, nowIso)
  {
    var users := GetUsers(CreateStore(kv, stores, data, Some(o), storeId, userId, nowIso));
    assert users[..|users| - 1] == GetUsers(kv);
  }

  // ---------------------------------------------------------------------------
  // handleUpdateStore

  /** The edited store: the form's fields over the original, with `updatedAt` set to now. */
  function Edited(editing: Store, data: StoreData, nowIso: string): (s: Store)
    ensures FormOf(s) == data && s.id == editing.id && s.createdAt == editing.createdAt && s.updatedAt == nowIso
  {
    editing.(name := data.name, email := data.email, phone := data.phone, address := data.address,
             isActive := data.isActive, expiresAt := data.expiresAt, updatedAt := nowIso)
  }

  /**
   * `handleUpdateStore`: nothing without a store being edited; otherwise
   * every store of the page's list with the edited id is replaced by the
   * edited record, the others stay, and the list is written back.
   */
  function UpdateStore(kv: Kv, stores: seq<Store>, editing: Option<Store>, data: StoreData, nowIso: string): (r: Kv)
    ensures editing.None? ==> r == kv
    ensures editing.Some? ==>
              && |GetStores(r)| == |stores|
              && forall i :: 0 <= i < |stores| ==>
                   GetStores(r)[i] == if stores[i].id == editing.value.id then Edited(editing.value, data, nowIso) else stores[i]
    ensures SameOutside(r, kv, {StoresKey})
  {
    if editing.None? then kv
    else
      var e := Edited(editing.value, data, nowIso);
      SetStores(kv, seq(|stores|, i requires 0 <= i < |stores| => if stores[i].id == editing.value.id then e else stores[i]))
  }

  /** Saving an edit keeps the set of store ids, and the edited store keeps its creation stamp and takes the form's fields. */
  lemma UpdateKeepsIds(kv: Kv, stores: seq<Store>, e: Store, data: StoreData, nowIso: string)
    ensures var out := GetStores(UpdateStore(kv, stores, Some(e), data, nowIso));
            && (forall i :: 0 <= i < |stores| ==> out[i].id == stores[i].id)
            && (forall i :: 0 <= i < |stores| && stores[i].id == e.id ==>
                  FormOf(out[i]) == data && out[i].createdAt == e.createdAt && out[i].updatedAt == nowIso)
  {
  }

  /** Resubmitting a store's own fields changes nothing but its `updatedAt`. */
  lemma UnchangedFormOnlyStamps(kv: Kv, stores: seq<Store>, i: nat, nowIso: string)
    requires i < |stores|
    ensures var out := GetStores(UpdateStore(kv, stores, Some(stores[i]), FormOf(stores[i]), nowIso));
            out[i] == stores[i].(updatedAt := nowIso)
  {
  }

  // ---------------------------------------------------------------------------
  // handleDeleteStore

  /**
   * `handleDeleteStore`: nothing without a store chosen; otherwise the store
   * leaves the page's list and every stored user bound to it is removed.
   * Products, customers and sales are left as they are.
   */
  function DeleteStore(kv: Kv, stores: seq<Store>, target: Option<Store>): (r: Kv)
    ensures target.None? ==> r == kv
    ensures target.Some? ==>
              && (forall s :: s in GetStores(r) <==> s in stores && s.id != target.value.id)
              && (forall u :: u in GetUsers(r) <==> u in GetUsers(kv) && u.storeId != Some(target.value.id))
              && IsSubseq(GetStores(r), stores) && IsSubseq(GetUsers(r), GetUsers(kv))
    ensures SameOutside(r, kv, {StoresKey, UsersKey})
  {
    if target.None? then kv
    else
      var id := target.value.id;
      var ss, us := StoresWithout(stores, id), UsersWithout(GetUsers(kv), id);
      StoresUsersWrite(kv, ss, us);
      SetUsers(SetStores(kv, ss), us)
  }

  /** Writing the stores and then the users: both read back, nothing else moves. */
  lemma StoresUsersWrite(kv: Kv, ss: seq<Store>, us: seq<User>)
    ensures GetStores(SetUsers(SetStores(kv, ss), us)) == ss
    ensures GetUsers(SetUsers(SetStores(kv, ss), us)) == us
    ensures SameOutside(SetUsers(SetStores(kv, ss), us), kv, {StoresKey, UsersKey})
  {
  }

  /** The stores of the list other than `id`, in order. */
  function StoresWithout(stores: seq<Store>, id: string): (r: seq<Store>)
    ensures forall s :: s in r <==> s in stores && s.id != id
    ensures forall s: Store :: s.id != id ==> multiset(r)[s] == multiset(stores)[s]
    ensures IsSubseq(r, stores)
  {
    FilterIsSubseq(stores, (s: Store) => s.id != id);
    Filter(stores, (s: Store) => s.id != id)
  }

  /** The users not bound to store `id`, in order. */
  function UsersWithout(users: seq<User>, id: string): (r: seq<User>)
    ensures forall u :: u in r <==> u in users && u.storeId != Some(id)
    ensures forall u: User :: u.storeId != Some(id) ==> multiset(r)[u] == multiset(users)[u]
    ensures IsSubseq(r, users)
  {
    FilterIsSubseq(users, (u: User) => u.storeId != Some(id));
    Filter(users, (u: User) => u.storeId != Some(id))
  }

  /** What a deletion writes: the page's list and the stored users, each filtered. */
  lemma DeleteWrites(kv: Kv, stores: seq<Store>, t: Store)
    ensures GetStores(DeleteStore(kv, stores, Some(t))) == StoresWithout(stores, t.id)
    ensures GetUsers(DeleteStore(kv, stores, Some(t))) == UsersWithout(GetUsers(kv), t.id)
  {
  }

  /** Filtering a fresh store back out of the list it was appended to. */
  lemma DropAppendedStore(stores: seq<Store>, ns: Store)
    requires forall s :: s in stores ==> s.id != ns.id
    ensures StoresWithout(stores + [ns], ns.id) == stores
  {
    FilterSnoc(stores, ns, (s: Store) => s.id != ns.id);
    FilterAll(stores, (s: Store) => s.id != ns.id);
  }

  /** Filtering the users of a fresh store back out, with or without its appended owner. */
  lemma DropAppendedOwner(users: seq<User>, extra: seq<User>, storeId: string)
    requires forall u :: u in users ==> u.storeId != Some(storeId)
    requires forall u :: u in extra ==> u.storeId == Some(storeId)
    requires |extra| <= 1
    ensures UsersWithout(users + extra, storeId) == users
  {
    FilterAll(users, (u: User) => u.storeId != Some(storeId));
    if extra == [] {
      assert users + extra == users;
    } else {
      assert extra == [extra[0]];
      FilterSnoc(users, extra[0], (u: User) => u.storeId != Some(storeId));
    }
  }

  /**
   * Deleting a store just created under a fresh id restores the store list
   * and the user list as they were before the creation.
   */
  lemma DeleteUndoesCreate(kv: Kv, stores: seq<Store>, data: StoreData, owner: Option<OwnerData>,
                           storeId: string, userId: string, nowIso: string)
    requires forall s :: s in stores ==> s.id != storeId
    requires forall u :: u in GetUsers(kv) ==> u.storeId != Some(storeId)
    ensures var created := CreateStore(kv, stores, data, owner, storeId, userId, nowIso);
            var deleted := DeleteStore(created, GetStores(created), Some(NewStore(data, storeId, nowIso)));
            GetStores(deleted) == stores && GetUsers(deleted) == GetUsers(kv)
  {
    var created := CreateStore(kv, stores, data, owner, storeId, userId, nowIso);
    var ns := NewStore(data, storeId, nowIso);
    var extra := CreatedOwners(owner, userId, storeId, nowIso);
    CreateWrites(kv, stores, data, owner, storeId, userId, nowIso);
    DeleteWrites(created, stores + [ns], ns);
    DropAppendedStore(stores, ns);
    DropAppendedOwner(GetUsers(kv), extra, storeId);
  }

  /** The owner accounts a creation appends: one when owner fields were given, none otherwise. */
  function CreatedOwners(owner: Option<OwnerData>, userId: string, storeId: string, nowIso: string): (r: seq<User>)
    ensures |r| <= 1
    ensures forall u :: u in r ==> u.storeId == Some(storeId)
  {
    if owner.Some? then [NewOwner(owner.value, userId, storeId, nowIso)] else []
  }

  /** What a creation writes: the list plus the new store, and the users plus the new owner if any. */
  lemma CreateWrites(kv: Kv, stores: seq<Store>, data: StoreData, owner: Option<OwnerData>,
                     storeId: string, userId: string, nowIso: string)
    ensures GetStores(CreateStore(kv, stores, data, owner, storeId, userId, nowIso)) == stores + [NewStore(data, storeId, nowIso)]
    ensures GetUsers(CreateStore(kv, stores, data, owner, storeId, userId, nowIso)) == GetUsers(kv) + CreatedOwners(owner, userId, storeId, nowIso)
  {
    if owner.None? {
      assert GetUsers(kv) + [] == GetUsers(kv);
    }
  }

  // ---------------------------------------------------------------------------
  // Search and counters

  /** `filteredStores`: name or e-mail contains the query, ignoring case. */
  function FilterStores(stores: seq<Store>, query: string): (r: seq<Store>)
    ensures forall s :: s in r <==> s in stores && (ContainsIgnoreCase(s.name, query) || ContainsIgnoreCase(s.email, query))
    ensures forall s: Store :: ContainsIgnoreCase(s.name, query) || ContainsIgnoreCase(s.email, query) ==>
              multiset(r)[s] == multiset(stores)[s]
    ensures IsSubseq(r, stores)
  {
    FilterIsSubseq(stores, (s: Store) => ContainsIgnoreCase(s.name, query) || ContainsIgnoreCase(s.email, query));
    Filter(stores, (s: Store) => ContainsIgnoreCase(s.name, query) || ContainsIgnoreCase(s.email, query))
  }

  /** An empty search box lists every store. */
  lemma EmptyQueryListsAll(stores: seq<Store>)
    ensures FilterStores(stores, "") == stores
  {
    forall i | 0 <= i < |stores|
      ensures ContainsIgnoreCase(stores[i].name, "")
    {
      ContainsEmpty(Lower(stores[i].name));
    }
    FilterAll(stores, (s: Store) => ContainsIgnoreCase(s.name, "") || ContainsIgnoreCase(s.email, ""));
  }

  /** The three counters above the store list. */
  datatype StoreCounts = StoreCounts(active: nat, blocked: nat, expired: nat)

  /** Accessible now (the "active" counter). */
  predicate IsAccessibleAt(now: int, s: Store) {
    IsStoreAccessible(s, now)
  }

  /** Switched off (the "blocked" counter). */
  predicate IsBlocked(s: Store) {
    !s.isActive
  }

  /** Past its expiry day (the "expired" counter). */
  predicate IsExpiredAt(now: int, s: Store) {
    ExpirationStatus(s, now) == Expired
  }

  /**
   * `activeStores`, `blockedStores`, `expiredStores`. A store is never
   * counted both active and blocked, nor both active and expired.
   */
  function CountStores(stores: seq<Store>, now: int): (r: StoreCounts)
    ensures r.active == |Filter(stores, (s: Store) => IsAccessibleAt(now, s))|
    ensures r.blocked == |Filter(stores, IsBlocked)|
    ensures r.expired == |Filter(stores, (s: Store) => IsExpiredAt(now, s))|
    ensures r.active + r.blocked <= |stores|
    ensures r.active + r.expired <= |stores|
  {
    CountsDisjoint(stores, now);
    StoreCounts(|Filter(stores, (s: Store) => IsAccessibleAt(now, s))|, |Filter(stores, IsBlocked)|,
                |Filter(stores, (s: Store) => IsExpiredAt(now, s))|)
  }

  /** Accessible stores are neither blocked nor expired. */
  lemma CountsDisjoint(stores: seq<Store>, now: int)
    ensures |Filter(stores, (s: Store) => IsAccessibleAt(now, s))| + |Filter(stores, IsBlocked)| <= |stores|
    ensures |Filter(stores, (s: Store) => IsAccessibleAt(now, s))| + |Filter(stores, (s: Store) => IsExpiredAt(now, s))| <= |stores|
  {
    forall s: Store
      ensures !(IsAccessibleAt(now, s) && IsExpiredAt(now, s))
    {
      if IsExpiredAt(now, s) {
        ExpiredIsInaccessible(s, now);
      }
    }
    FilterDisjoint(stores, (s: Store) => IsAccessibleAt(now, s), IsBlocked);
    FilterDisjoint(stores, (s: Store) => IsAccessibleAt(now, s), (s: Store) => IsExpiredAt(now, s));
  }
}
