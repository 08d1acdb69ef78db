/**
 * The browser key-value store (lib/storage.ts), modelled as a map from the
 * seven storage key strings to already-decoded values. JSON encoding is the
 * identity here; a key that was never written reads as the empty collection
 * or as no value, exactly as the source's `getItem` fallbacks do.
 */
module Storage {
  import opened Wrappers
  import opened Types
  import opened Seqs

  /** The seven storage slots. */
  datatype Key = UserKey | ProductsKey | CustomersKey | SalesKey | StoresKey | ActiveStoreKey | UsersKey

  /** The `localStorage` key string of each slot. */
  function KeyName(k: Key): string {
    match k
    case UserKey => "sales_app_user"
    case ProductsKey => "sales_app_products"
    case CustomersKey => "sales_app_customers"
    case SalesKey => "sales_app_sales"
    case StoresKey => "sales_app_stores"
    case ActiveStoreKey => "sales_app_active_store"
    case UsersKey => "sales_app_users"
  }

  /** A decoded stored value. */
  datatype Value =
    | UsersValue(users: seq<User>)
    | StoresValue(stores: seq<Store>)
    | ProductsValue(products: seq<Product>)
    | CustomersValue(customers: seq<Customer>)
    | SalesValue(sales: seq<Sale>)
    | UserValue(user: User)
    | StoreValue(store: Store)

  /** The whole of local storage, by slot. */
  type Kv = map<Key, Value>

  /** Storage before anything was written. */
  const Blank: Kv := map[]

  // ---------------------------------------------------------------------------
  // Session slots

  function GetUser(kv: Kv): Option<User> {
    if UserKey in kv && kv[UserKey].UserValue? then Some(kv[UserKey].user) else None
  }

  function SetUser(kv: Kv, u: User): Kv {
    kv[UserKey := UserValue(u)]
  }

  function ClearUser(kv: Kv): Kv {
    kv - {UserKey}
  }

  function GetActiveStore(kv: Kv): Option<Store> {
    if ActiveStoreKey in kv && kv[ActiveStoreKey].StoreValue? then Some(kv[ActiveStoreKey].store) else None
  }

  function SetActiveStore(kv: Kv, s: Store): Kv {
    kv[ActiveStoreKey := StoreValue(s)]
  }

  function ClearActiveStore(kv: Kv): Kv {
    kv - {ActiveStoreKey}
  }

  // ---------------------------------------------------------------------------
  // Collections: whole-collection reads and last-write-wins writes

  function GetProducts(kv: Kv): seq<Product> {
    if ProductsKey in kv && kv[ProductsKey].ProductsValue? then kv[ProductsKey].products else []
  }

  function SetProducts(kv: Kv, ps: seq<Product>): Kv {
    kv[ProductsKey := ProductsValue(ps)]
  }

  function GetCustomers(kv: Kv): seq<Customer> {
    if CustomersKey in kv && kv[CustomersKey].CustomersValue? then kv[CustomersKey].customers else []
  }

  function SetCustomers(kv: Kv, cs: seq<Customer>): Kv {
    kv[CustomersKey := CustomersValue(cs)]
  }

  function GetSales(kv: Kv): seq<Sale> {
    if SalesKey in kv && kv[SalesKey].SalesValue? then kv[SalesKey].sales else []
  }

  function SetSales(kv: Kv, ss: seq<Sale>): Kv {
    kv[SalesKey := SalesValue(ss)]
  }

  function GetStores(kv: Kv): seq<Store> {
    if StoresKey in kv && kv[StoresKey].StoresValue? then kv[StoresKey].stores else []
  }

  function SetStores(kv: Kv, ss: seq<Store>): Kv {
    kv[StoresKey := StoresValue(ss)]
  }

  function GetUsers(kv: Kv): seq<User> {
    if UsersKey in kv && kv[UsersKey].UsersValue? then kv[UsersKey].users else []
  }

  function SetUsers(kv: Kv, us: seq<User>): Kv {
    kv[UsersKey := UsersValue(us)]
  }

  // ---------------------------------------------------------------------------
  // Store-scoped reads

  /** `getProductsByStore`: exactly the store's products, in stored order. */
  function GetProductsByStore(kv: Kv, storeId: string): (r: seq<Product>)
    ensures forall p :: p in r <==> p in GetProducts(kv) && p.storeId == storeId
    ensures forall p: Product :: p.storeId == storeId ==> multiset(r)[p] == multiset(GetProducts(kv))[p]
    ensures IsSubseq(r, GetProducts(kv))
  {
    FilterIsSubseq(GetProducts(kv), (p: Product) => p.storeId == storeId);
    Filter(GetProducts(kv), (p: Product) => p.storeId == storeId)
  }

  /** `getProductById`: the first product with this id in this store; never one of another store. */
  function GetProductById(kv: Kv, id: string, storeId: string): (r: Option<Product>)
    ensures r.Some? ==> r.value in GetProducts(kv) && r.value.id == id && r.value.storeId == storeId
    ensures r.Some? ==> IsFirstMatch(GetProducts(kv), (p: Product) => p.id == id && p.storeId == storeId, r.value)
    ensures r.None? <==> forall p :: p in GetProducts(kv) ==> !(p.id == id && p.storeId == storeId)
  {
    Find(GetProducts(kv), (p: Product) => p.id == id && p.storeId == storeId)
  }

  /** `getCustomersByStore`: exactly the store's customers, in stored order. */
  function GetCustomersByStore(kv: Kv, storeId: string): (r: seq<Customer>)
    ensures forall c :: c in r <==> c in GetCustomers(kv) && c.storeId == storeId
    ensures forall c: Customer :: c.storeId == storeId ==> multiset(r)[c] == multiset(GetCustomers(kv))[c]
    ensures IsSubseq(r, GetCustomers(kv))
  {
    FilterIsSubseq(GetCustomers(kv), (c: Customer) => c.storeId == storeId);
    Filter(GetCustomers(kv), (c: Customer) => c.storeId == storeId)
  }

  /** `getCustomerById`: the first customer with this id in this store. */
  function GetCustomerById(kv: Kv, id: string, storeId: string): (r: Option<Customer>)
    ensures r.Some? ==> r.value in GetCustomers(kv) && r.value.id == id && r.value.storeId == storeId
    ensures r.Some? ==> IsFirstMatch(GetCustomers(kv), (c: Customer) => c.id == id && c.storeId == storeId, r.value)
    ensures r.None? <==> forall c :: c in GetCustomers(kv) ==> !(c.id == id && c.storeId == storeId)
  {
    Find(GetCustomers(kv), (c: Customer) => c.id == id && c.storeId == storeId)
  }

  /** `getSalesByStore`: exactly the store's sales, in stored order. */
  function GetSalesByStore(kv: Kv, storeId: string): (r: seq<Sale>)
    ensures forall s :: s in r <==> s in GetSales(kv) && s.storeId == storeId
    ensures forall s: Sale :: s.storeId == storeId ==> multiset(r)[s] == multiset(GetSales(kv))[s]
    ensures IsSubseq(r, GetSales(kv))
  {
    FilterIsSubseq(GetSales(kv), (s: Sale) => s.storeId == storeId);
    Filter(GetSales(kv), (s: Sale) => s.storeId == storeId)
  }

  /** `getSaleById`: the first sale with this id in this store. */
  function GetSaleById(kv: Kv, id: string, storeId: string): (r: Option<Sale>)
    ensures r.Some? ==> r.value in GetSales(kv) && r.value.id == id && r.value.storeId == storeId
    ensures r.Some? ==> IsFirstMatch(GetSales(kv), (s: Sale) => s.id == id && s.storeId == storeId, r.value)
    ensures r.None? <==> forall s :: s in GetSales(kv) ==> !(s.id == id && s.storeId == storeId)
  {
    Find(GetSales(kv), (s: Sale) => s.id == id && s.storeId == storeId)
  }

  /** `getUserByEmail`: the first user with this email, whatever its password. */
  function GetUserByEmail(kv: Kv, email: string): (r: Option<User>)
    ensures r.Some? ==> r.value in GetUsers(kv) && r.value.email == email
    ensures r.Some? ==> IsFirstMatch(GetUsers(kv), (u: User) => u.email == email, r.value)
    ensures r.None? <==> forall u :: u in GetUsers(kv) ==> u.email != email
  {
    Find(GetUsers(kv), (u: User) => u.email == email)
  }

  /** `getUsersByStore`: exactly the users bound to the store (never a super admin without one). */
  function GetUsersByStore(kv: Kv, storeId: string): (r: seq<User>)
    ensures forall u :: u in r <==> u in GetUsers(kv) && u.storeId == Some(storeId)
    ensures forall u: User :: u.storeId == Some(storeId) ==> multiset(r)[u] == multiset(GetUsers(kv))[u]
    ensures IsSubseq(r, GetUsers(kv))
  {
    FilterIsSubseq(GetUsers(kv), (u: User) => u.storeId == Some(storeId));
    Filter(GetUsers(kv), (u: User) => u.storeId == Some(storeId))
  }

  // ---------------------------------------------------------------------------
  // Frames

  /** The slot `k` of `kv`, if written. */
  function Slot(kv: Kv, k: Key): Option<Value> {
    if k in kv then Some(kv[k]) else None
  }

  /** Every slot except `k` holds the same value in `a` and `b`. */
  predicate SameExcept(a: Kv, b: Kv, k: Key) {
    forall k' :: k' != k ==> Slot(a, k') == Slot(b, k')
  }

  /** Every slot outside `ks` holds the same value in `a` and `b`. */
  predicate SameOutside(a: Kv, b: Kv, ks: set<Key>) {
    forall k :: k !in ks ==> Slot(a, k) == Slot(b, k)
  }

  // ---------------------------------------------------------------------------
  // Properties of the store

  /**
   * The seven slots are stored under pairwise distinct key strings, so a
   * write to one slot can never be observed through another.
   */
  lemma KeyNamesDistinct(a: Key, b: Key)
    ensures KeyName(a) == KeyName(b) ==> a == b
  {
    if a != b {
      var x, y := KeyName(a), KeyName(b);
      assert x[|x| - 3..] != y[|y| - 3..] || x[10..13] != y[10..13] || |x| != |y| || x != y;
    }
  }

  /** Nothing written yet: every collection reads empty and both session slots read absent. */
  lemma BlankReads()
    ensures GetUser(Blank) == None && GetActiveStore(Blank) == None
    ensures GetProducts(Blank) == [] && GetCustomers(Blank) == [] && GetSales(Blank) == []
    ensures GetStores(Blank) == [] && GetUsers(Blank) == []
  {
  }

  /** Reading a slot right after writing it returns what was written; after clearing, nothing. */
  lemma SlotRoundTrip(kv: Kv, u: User, s: Store)
    ensures GetUser(SetUser(kv, u)) == Some(u) && GetUser(ClearUser(kv)) == None
    ensures GetActiveStore(SetActiveStore(kv, s)) == Some(s) && GetActiveStore(ClearActiveStore(kv)) == None
  {
  }

  /** A collection write replaces the whole collection: the next read returns exactly it. */
  lemma CollectionRoundTrip(kv: Kv, ps: seq<Product>, cs: seq<Customer>, ss: seq<Sale>, sts: seq<Store>, us: seq<User>)
    ensures GetProducts(SetProducts(kv, ps)) == ps
    ensures GetCustomers(SetCustomers(kv, cs)) == cs
    ensures GetSales(SetSales(kv, ss)) == ss
    ensures GetStores(SetStores(kv, sts)) == sts
    ensures GetUsers(SetUsers(kv, us)) == us
  {
  }

  /** Every reading of `a` except that of slot `k` agrees with the same reading of `b`. */
  predicate ReadsAgreeExcept(a: Kv, b: Kv, k: Key) {
    && (k != UserKey ==> GetUser(a) == GetUser(b))
    && (k != ActiveStoreKey ==> GetActiveStore(a) == GetActiveStore(b))
    && (k != ProductsKey ==> GetProducts(a) == GetProducts(b))
    && (k != CustomersKey ==> GetCustomers(a) == GetCustomers(b))
    && (k != SalesKey ==> GetSales(a) == GetSales(b))
    && (k != StoresKey ==> GetStores(a) == GetStores(b))
    && (k != UsersKey ==> GetUsers(a) == GetUsers(b))
  }

  /**
   * Writing one collection changes only its own slot: every other slot, and
   * so every other reading, is as it was.
   */
  lemma CollectionWriteFrame(kv: Kv, ps: seq<Product>, cs: seq<Customer>, ss: seq<Sale>, st: seq<Store>, us: seq<User>)
    ensures ReadsAgreeExcept(SetProducts(kv, ps), kv, ProductsKey) && SameExcept(SetProducts(kv, ps), kv, ProductsKey)
    ensures ReadsAgreeExcept(SetCustomers(kv, cs), kv, CustomersKey) && SameExcept(SetCustomers(kv, cs), kv, CustomersKey)
    ensures ReadsAgreeExcept(SetSales(kv, ss), kv, SalesKey) && SameExcept(SetSales(kv, ss), kv, SalesKey)
    ensures ReadsAgreeExcept(SetStores(kv, st), kv, StoresKey) && SameExcept(SetStores(kv, st), kv, StoresKey)
    ensures ReadsAgreeExcept(SetUsers(kv, us), kv, UsersKey) && SameExcept(SetUsers(kv, us), kv, UsersKey)
  {
  }

  /**
   * Writing or clearing the user slot leaves every other slot, and so every
   * other reading, as it was.
   */
  lemma UserWriteFrame(kv: Kv, u: User)
    ensures SameExcept(SetUser(kv, u), kv, UserKey) && SameExcept(ClearUser(kv), kv, UserKey)
    ensures forall k :: k in {SetUser(kv, u), ClearUser(kv)} ==>
              && GetActiveStore(k) == GetActiveStore(kv)
              && GetProducts(k) == GetProducts(kv) && GetCustomers(k) == GetCustomers(kv)
              && GetSales(k) == GetSales(kv) && GetStores(k) == GetStores(kv) && GetUsers(k) == GetUsers(kv)
  {
  }

  /**
   * Writing or clearing the active-store slot leaves every other slot, and
   * so every other reading, as it was.
   */
  lemma ActiveStoreWriteFrame(kv: Kv, s: Store)
    ensures SameExcept(SetActiveStore(kv, s), kv, ActiveStoreKey) && SameExcept(ClearActiveStore(kv), kv, ActiveStoreKey)
    ensures forall k :: k in {SetActiveStore(kv, s), ClearActiveStore(kv)} ==>
              && GetUser(k) == GetUser(kv)
              && GetProducts(k) == GetProducts(kv) && GetCustomers(k) == GetCustomers(kv)
              && GetSales(k) == GetSales(kv) && GetStores(k) == GetStores(kv) && GetUsers(k) == GetUsers(kv)
  {
  }
}
