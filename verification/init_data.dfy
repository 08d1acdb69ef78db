/**
 * The one-shot data initialisation run on start-up (lib/init-data.ts): seeds
 * the administrator account and demo fixtures into empty collections and
 * backfills the owning store and receipt code of legacy records.
 *
 * The fixtures of lib/seed-data.ts are parameters (`seeds`); the clock and
 * random source behind each generated receipt code are the functions
 * `stampOf` and `randomOf` of the sale's position.
 */
module InitData {
  import opened Wrappers
  import opened Types
  import opened Seqs
  import opened Storage
  import AuthContext
  import ReceiptUtils

  /** Store id given to legacy records when no store is persisted as active. */
  const DemoStoreId: string := "demo"

  /** The demo fixtures inserted into empty collections. */
  datatype Seeds = Seeds(products: seq<Product>, customers: seq<Customer>)

  /** The clock and random source, per sale position, for generated receipt codes. */
  datatype CodeSource = CodeSource(stampOf: int -> nat, randomOf: int -> string)

  /** `activeStore?.id || "demo"`. */
  function FallbackStoreId(kv: Kv): (r: string)
    ensures r != ""
    ensures GetActiveStore(kv).Some? && GetActiveStore(kv).value.id != "" ==> r == GetActiveStore(kv).value.id
  {
    var active := GetActiveStore(kv);
    if active.Some? && active.value.id != "" then active.value.id else DemoStoreId
  }

  /** The receipt code generated for the sale at position `i`. */
  function CodeAt(src: CodeSource, i: int): string {
    ReceiptUtils.GenerateReceiptCode(src.stampOf(i), src.randomOf(i))
  }

  /** Fixtures re-owned by `storeId`. */
  function StampProducts(ps: seq<Product>, storeId: string): (r: seq<Product>)
    ensures |r| == |ps|
    ensures forall i :: 0 <= i < |ps| ==> r[i] == ps[i].(storeId := storeId)
  {
    seq(|ps|, i requires 0 <= i < |ps| => ps[i].(storeId := storeId))
  }

  /** Fixtures re-owned by `storeId`. */
  function StampCustomers(cs: seq<Customer>, storeId: string): (r: seq<Customer>)
    ensures |r| == |cs|
    ensures forall i :: 0 <= i < |cs| ==> r[i] == cs[i].(storeId := storeId)
  {
    seq(|cs|, i requires 0 <= i < |cs| => cs[i].(storeId := storeId))
  }

  /** `storeId: p.storeId || storeId` for every product. */
  function BackfillProducts(ps: seq<Product>, storeId: string): (r: seq<Product>)
    ensures |r| == |ps|
    ensures forall i :: 0 <= i < |ps| ==>
              r[i] == ps[i].(storeId := if ps[i].storeId != "" then ps[i].storeId else storeId)
  {
    seq(|ps|, i requires 0 <= i < |ps| => ps[i].(storeId := if ps[i].storeId != "" then ps[i].storeId else storeId))
  }

  /** `storeId: c.storeId || storeId` for every customer. */
  function BackfillCustomers(cs: seq<Customer>, storeId: string): (r: seq<Customer>)
    ensures |r| == |cs|
    ensures forall i :: 0 <= i < |cs| ==>
              r[i] == cs[i].(storeId := if cs[i].storeId != "" then cs[i].storeId else storeId)
  {
    seq(|cs|, i requires 0 <= i < |cs| => cs[i].(storeId := if cs[i].storeId != "" then cs[i].storeId else storeId))
  }

  /** A sale lacks its receipt code or its owning store. */
  predicate NeedsBackfill(s: Sale) {
    s.receiptCode == "" || s.storeId == ""
  }

  /** The sale at position `i`, with a missing code or store filled in and everything else kept. */
  function BackfillSale(s: Sale, i: int, storeId: string, src: CodeSource): Sale {
    if NeedsBackfill(s) then
      s.(receiptCode := if s.receiptCode != "" then s.receiptCode else CodeAt(src, i),
         storeId := if s.storeId != "" then s.storeId else storeId)
    else s
  }

  /** Every sale backfilled, in place. */
  function BackfillSales(ss: seq<Sale>, storeId: string, src: CodeSource): (r: seq<Sale>)
    ensures |r| == |ss|
    ensures forall i :: 0 <= i < |ss| ==> r[i] == BackfillSale(ss[i], i, storeId, src)
  {
    seq(|ss|, i requires 0 <= i < |ss| => BackfillSale(ss[i], i, storeId, src))
  }

  /** Step 1: the administrator account, only into an empty user list. */
  function SeedAdmin(kv: Kv, nowIso: string): (r: Kv)
    ensures GetUsers(r) == if |GetUsers(kv)| == 0 then [AuthContext.AdminUser(nowIso)] else GetUsers(kv)
    ensures SameExcept(r, kv, UsersKey)
  {
    if |GetUsers(kv)| == 0 then SetUsers(kv, [AuthContext.AdminUser(nowIso)]) else kv
  }

  /** Step 2: product fixtures, only into an empty collection when a store is active. */
  function SeedProducts(kv: Kv, seeds: Seeds, storeId: string): (r: Kv)
    ensures GetProducts(r) ==
              if |GetProducts(kv)| == 0 && GetActiveStore(kv).Some? then StampProducts(seeds.products, storeId)
              else GetProducts(kv)
    ensures SameExcept(r, kv, ProductsKey)
  {
    if |GetProducts(kv)| == 0 && GetActiveStore(kv).Some? then SetProducts(kv, StampProducts(seeds.products, storeId))
    else kv
  }

  /** Step 3: customer fixtures, under the same condition. */
  function SeedCustomers(kv: Kv, seeds: Seeds, storeId: string): (r: Kv)
    ensures GetCustomers(r) ==
              if |GetCustomers(kv)| == 0 && GetActiveStore(kv).Some? then StampCustomers(seeds.customers, storeId)
              else GetCustomers(kv)
    ensures SameExcept(r, kv, CustomersKey)
  {
    if |GetCustomers(kv)| == 0 && GetActiveStore(kv).Some? then SetCustomers(kv, StampCustomers(seeds.customers, storeId))
    else kv
  }

  /** Step 4: sales backfill, written only when some sale needed it. */
  function FixSales(kv: Kv, storeId: string, src: CodeSource): (r: Kv)
    ensures GetSales(r) == BackfillSales(GetSales(kv), storeId, src)
    ensures !Any(GetSales(kv), NeedsBackfill) ==> r == kv
    ensures SameExcept(r, kv, SalesKey)
  {
    var sales := GetSales(kv);
    if Any(sales, NeedsBackfill) then SetSales(kv, BackfillSales(sales, storeId, src))
    else
      assert BackfillSales(sales, storeId, src) == sales;
      kv
  }

  /** Step 5: owner backfill of the products as they were read before seeding. */
  function FixProducts(kv: Kv, products: seq<Product>, storeId: string): (r: Kv)
    ensures Any(products, (p: Product) => p.storeId == "") ==> GetProducts(r) == BackfillProducts(products, storeId)
    ensures !Any(products, (p: Product) => p.storeId == "") ==> r == kv && BackfillProducts(products, storeId) == products
    ensures SameExcept(r, kv, ProductsKey)
  {
    if Any(products, (p: Product) => p.storeId == "") then SetProducts(kv, BackfillProducts(products, storeId))
    else
      assert BackfillProducts(products, storeId) == products;
      kv
  }

  /** Step 6: owner backfill of the customers as they were read before seeding. */
  function FixCustomers(kv: Kv, customers: seq<Customer>, storeId: string): (r: Kv)
    ensures Any(customers, (c: Customer) => c.storeId == "") ==> GetCustomers(r) == BackfillCustomers(customers, storeId)
    ensures !Any(customers, (c: Customer) => c.storeId == "") ==> r == kv && BackfillCustomers(customers, storeId) == customers
    ensures SameExcept(r, kv, CustomersKey)
  {
    if Any(customers, (c: Customer) => c.storeId == "") then SetCustomers(kv, BackfillCustomers(customers, storeId))
    else
      assert BackfillCustomers(customers, storeId) == customers;
      kv
  }

  /** `initializeData` as a transformation of the whole storage: the last of its steps. */
  function InitializeData(kv: Kv, nowIso: string, seeds: Seeds, src: CodeSource): Kv {
    Steps(kv, nowIso, seeds, src).kv6
  }

  /** Each read depends only on its own slot. */
  lemma ReadsFollowSlots(a: Kv, b: Kv)
    ensures Slot(a, UserKey) == Slot(b, UserKey) ==> GetUser(a) == GetUser(b)
    ensures Slot(a, ActiveStoreKey) == Slot(b, ActiveStoreKey) ==> GetActiveStore(a) == GetActiveStore(b)
    ensures Slot(a, StoresKey) == Slot(b, StoresKey) ==> GetStores(a) == GetStores(b)
    ensures Slot(a, UsersKey) == Slot(b, UsersKey) ==> GetUsers(a) == GetUsers(b)
    ensures Slot(a, ProductsKey) == Slot(b, ProductsKey) ==> GetProducts(a) == GetProducts(b)
    ensures Slot(a, CustomersKey) == Slot(b, CustomersKey) ==> GetCustomers(a) == GetCustomers(b)
    ensures Slot(a, SalesKey) == Slot(b, SalesKey) ==> GetSales(a) == GetSales(b)
  {
  }

  /** The intermediate states of `InitializeData`, named. */
  datatype Trace = Trace(kv1: Kv, storeId: string, products: seq<Product>, kv2: Kv,
                         customers: seq<Customer>, kv3: Kv, kv4: Kv, kv5: Kv, kv6: Kv)

  /**
   * The steps of `initializeData`, in order: seed the administrator, pick
   * the fallback store id, read the products, seed products, read the
   * customers, seed customers, backfill sales, products and customers.
   */
  function Steps(kv: Kv, nowIso: string, seeds: Seeds, src: CodeSource): Trace {
    var kv1 := SeedAdmin(kv, nowIso);
    var storeId := FallbackStoreId(kv1);
    var products := GetProducts(kv1);
    var kv2 := SeedProducts(kv1, seeds, storeId);
    var customers := GetCustomers(kv2);
    var kv3 := SeedCustomers(kv2, seeds, storeId);
    var kv4 := FixSales(kv3, storeId, src);
    var kv5 := FixProducts(kv4, products, storeId);
    Trace(kv1, storeId, products, kv2, customers, kv3, kv4, kv5, FixCustomers(kv5, customers, storeId))
  }

  /** What the run does to each slot, step by step. */
  lemma {:induction false} StepFacts(kv: Kv, nowIso: string, seeds: Seeds, src: CodeSource)
    ensures var t := Steps(kv, nowIso, seeds, src);
            var r := t.kv6;
            && GetUser(r) == GetUser(kv) && GetActiveStore(r) == GetActiveStore(kv) && GetStores(r) == GetStores(kv)
            && GetUsers(r) == GetUsers(t.kv1)
            && t.storeId == FallbackStoreId(kv)
            && t.products == GetProducts(kv)
            && t.customers == GetCustomers(kv)
            && GetSales(r) == BackfillSales(GetSales(kv), t.storeId, src)
  {
    var t := Steps(kv, nowIso, seeds, src);
    ReadsFollowSlots(t.kv1, kv);
    ReadsFollowSlots(t.kv2, t.kv1);
    ReadsFollowSlots(t.kv3, t.kv2);
    ReadsFollowSlots(t.kv4, t.kv3);
    ReadsFollowSlots(t.kv5, t.kv4);
    ReadsFollowSlots(t.kv6, t.kv5);
  }

  // ---------------------------------------------------------------------------
  // Properties

  /** The administrator account is created only when there are no users at all. */
  lemma InitUsers(kv: Kv, nowIso: string, seeds: Seeds, src: CodeSource)
    ensures var r := InitializeData(kv, nowIso, seeds, src);
            && (|GetUsers(kv)| == 0 ==> GetUsers(r) == [AuthContext.AdminUser(nowIso)])
            && (|GetUsers(kv)| > 0 ==> GetUsers(r) == GetUsers(kv))
  {
    StepFacts(kv, nowIso, seeds, src);
  }

  /** Session slots and the store list are never touched. */
  lemma InitKeepsSessionAndStores(kv: Kv, nowIso: string, seeds: Seeds, src: CodeSource)
    ensures var r := InitializeData(kv, nowIso, seeds, src);
            GetUser(r) == GetUser(kv) && GetActiveStore(r) == GetActiveStore(kv) && GetStores(r) == GetStores(kv)
  {
    StepFacts(kv, nowIso, seeds, src);
  }

  /**
   * Products: seeded (stamped with the active store's id, or "demo" when
   * that id is empty) only into an empty collection with an active store;
   * otherwise each existing product keeps a non-empty owner and gets the
   * fallback owner when it had none.
   */
  lemma InitProducts(kv: Kv, nowIso: string, seeds: Seeds, src: CodeSource)
    ensures var r := InitializeData(kv, nowIso, seeds, src);
            var sid := FallbackStoreId(kv);
            && (|GetProducts(kv)| == 0 && GetActiveStore(kv).Some? ==>
                  GetProducts(r) == StampProducts(seeds.products, sid))
            && (|GetProducts(kv)| == 0 && GetActiveStore(kv).None? ==> GetProducts(r) == [])
            && (|GetProducts(kv)| > 0 ==> GetProducts(r) == BackfillProducts(GetProducts(kv), sid))
  {
    StepFacts(kv, nowIso, seeds, src);
    var t := Steps(kv, nowIso, seeds, src);
    ReadsFollowSlots(t.kv1, kv);
    ReadsFollowSlots(t.kv3, t.kv2);
    ReadsFollowSlots(t.kv4, t.kv3);
    ReadsFollowSlots(t.kv6, t.kv5);
  }

  /** Customers follow the same rule as products. */
  lemma InitCustomers(kv: Kv, nowIso: string, seeds: Seeds, src: CodeSource)
    ensures var r := InitializeData(kv, nowIso, seeds, src);
            var sid := FallbackStoreId(kv);
            && (|GetCustomers(kv)| == 0 && GetActiveStore(kv).Some? ==>
                  GetCustomers(r) == StampCustomers(seeds.customers, sid))
            && (|GetCustomers(kv)| == 0 && GetActiveStore(kv).None? ==> GetCustomers(r) == [])
            && (|GetCustomers(kv)| > 0 ==> GetCustomers(r) == BackfillCustomers(GetCustomers(kv), sid))
  {
    StepFacts(kv, nowIso, seeds, src);
    var t := Steps(kv, nowIso, seeds, src);
    ReadsFollowSlots(t.kv1, kv);
    ReadsFollowSlots(t.kv2, t.kv1);
    ReadsFollowSlots(t.kv4, t.kv3);
    ReadsFollowSlots(t.kv5, t.kv4);
  }

  /**
   * Sales keep their number and order; a present receipt code or owner is
   * kept, a missing one is filled in, and afterwards no sale lacks either.
   */
  lemma InitSales(kv: Kv, nowIso: string, seeds: Seeds, src: CodeSource)
    ensures var r := InitializeData(kv, nowIso, seeds, src);
            var before := GetSales(kv);
            var after := GetSales(r);
            && |after| == |before|
            && (forall i :: 0 <= i < |before| ==>
                  && after[i] == BackfillSale(before[i], i, FallbackStoreId(kv), src)
                  && (before[i].receiptCode != "" ==> after[i].receiptCode == before[i].receiptCode)
                  && (before[i].storeId != "" ==> after[i].storeId == before[i].storeId))
            && (forall i :: 0 <= i < |after| ==> !NeedsBackfill(after[i]))
  {
    StepFacts(kv, nowIso, seeds, src);
    BackfillSalesFacts(GetSales(kv), FallbackStoreId(kv), src);
  }

  /** The backfill keeps present codes and owners, and leaves no sale lacking either when the fallback owner is non-empty. */
  lemma BackfillSalesFacts(ss: seq<Sale>, storeId: string, src: CodeSource)
    requires storeId != ""
    ensures var out := BackfillSales(ss, storeId, src);
            && (forall i :: 0 <= i < |ss| ==>
                  && (ss[i].receiptCode != "" ==> out[i].receiptCode == ss[i].receiptCode)
                  && (ss[i].storeId != "" ==> out[i].storeId == ss[i].storeId))
            && (forall i :: 0 <= i < |out| ==> !NeedsBackfill(out[i]))
  {
    forall i | 0 <= i < |ss| && ss[i].receiptCode == ""
      ensures CodeAt(src, i) != ""
    {
    }
  }

  /** Rewriting a slot with the value it already holds changes nothing. */
  lemma RewriteIsNoop(kv: Kv, ps: seq<Product>, cs: seq<Customer>)
    ensures Slot(kv, ProductsKey) == Some(ProductsValue(ps)) ==> SetProducts(kv, ps) == kv
    ensures Slot(kv, CustomersKey) == Some(CustomersValue(cs)) ==> SetCustomers(kv, cs) == kv
  {
  }

  /** A storage on which `InitializeData` has nothing left to do. */
  predicate Settled(kv: Kv, seeds: Seeds) {
    var sid := FallbackStoreId(kv);
    && |GetUsers(kv)| > 0
    && (|GetProducts(kv)| == 0 && GetActiveStore(kv).Some? ==>
          Slot(kv, ProductsKey) == Some(ProductsValue(StampProducts(seeds.products, sid))))
    && (|GetCustomers(kv)| == 0 && GetActiveStore(kv).Some? ==>
          Slot(kv, CustomersKey) == Some(CustomersValue(StampCustomers(seeds.customers, sid))))
    && (forall s :: s in GetSales(kv) ==> !NeedsBackfill(s))
    && (forall p :: p in GetProducts(kv) ==> p.storeId != "")
    && (forall c :: c in GetCustomers(kv) ==> c.storeId != "")
  }

  /** A settled storage is a fixed point of `InitializeData`, whatever the clock and random source. */
  lemma SettledIsFixpoint(kv: Kv, nowIso: string, seeds: Seeds, src: CodeSource)
    requires Settled(kv, seeds)
    ensures InitializeData(kv, nowIso, seeds, src) == kv
  {
    var t := Steps(kv, nowIso, seeds, src);
    assert t.kv1 == kv;
    RewriteIsNoop(kv, StampProducts(seeds.products, t.storeId), StampCustomers(seeds.customers, t.storeId));
    assert t.kv2 == kv;
    assert t.kv3 == kv;
    assert !Any(GetSales(kv), NeedsBackfill);
    assert t.kv4 == kv;
    assert t.kv5 == kv;
  }

  /** After one run no sale lacks a receipt code or an owner. */
  lemma InitSettlesSales(kv: Kv, nowIso: string, seeds: Seeds, src: CodeSource)
    ensures forall s :: s in GetSales(InitializeData(kv, nowIso, seeds, src)) ==> !NeedsBackfill(s)
  {
    var r := InitializeData(kv, nowIso, seeds, src);
    InitSales(kv, nowIso, seeds, src);
    forall s | s in GetSales(r) ensures !NeedsBackfill(s) {
      var i :| 0 <= i < |GetSales(r)| && GetSales(r)[i] == s;
    }
  }

  /** After one run an empty collection holds exactly the stamped fixtures. */
  lemma InitSettlesProducts(kv: Kv, nowIso: string, seeds: Seeds, src: CodeSource)
    ensures var r := InitializeData(kv, nowIso, seeds, src);
            (|GetProducts(r)| == 0 && GetActiveStore(r).Some? ==>
                  Slot(r, ProductsKey) == Some(ProductsValue(StampProducts(seeds.products, FallbackStoreId(r)))))
  {
    InitKeepsSessionAndStores(kv, nowIso, seeds, src);
    InitProducts(kv, nowIso, seeds, src);
    if |GetProducts(kv)| == 0 && GetActiveStore(kv).Some? {
      SeededProductsStay(kv, nowIso, seeds, src);
    }
  }

  /** Products seeded into an empty collection are what the run leaves in the slot. */
  lemma SeededProductsStay(kv: Kv, nowIso: string, seeds: Seeds, src: CodeSource)
    requires |GetProducts(kv)| == 0 && GetActiveStore(kv).Some?
    ensures Slot(InitializeData(kv, nowIso, seeds, src), ProductsKey)
            == Some(ProductsValue(StampProducts(seeds.products, FallbackStoreId(kv))))
  {
    var t := Steps(kv, nowIso, seeds, src);
    StepFacts(kv, nowIso, seeds, src);
    ReadsFollowSlots(t.kv1, kv);
    var stamped := Some(ProductsValue(StampProducts(seeds.products, t.storeId)));
    assert Slot(t.kv2, ProductsKey) == stamped;
    assert Slot(t.kv3, ProductsKey) == stamped;
    assert Slot(t.kv4, ProductsKey) == stamped;
    assert t.kv5 == t.kv4;
    assert Slot(t.kv6, ProductsKey) == stamped;
  }

  /** The same for customers. */
  lemma InitSettlesCustomers(kv: Kv, nowIso: string, seeds: Seeds, src: CodeSource)
    ensures var r := InitializeData(kv, nowIso, seeds, src);
            (|GetCustomers(r)| == 0 && GetActiveStore(r).Some? ==>
                  Slot(r, CustomersKey) == Some(CustomersValue(StampCustomers(seeds.customers, FallbackStoreId(r)))))
  {
    InitKeepsSessionAndStores(kv, nowIso, seeds, src);
    InitCustomers(kv, nowIso, seeds, src);
    if |GetCustomers(kv)| == 0 && GetActiveStore(kv).Some? {
      SeededCustomersStay(kv, nowIso, seeds, src);
    }
  }

  /** Customers seeded into an empty collection are what the run leaves in the slot. */
  lemma SeededCustomersStay(kv: Kv, nowIso: string, seeds: Seeds, src: CodeSource)
    requires |GetCustomers(kv)| == 0 && GetActiveStore(kv).Some?
    ensures Slot(InitializeData(kv, nowIso, seeds, src), CustomersKey)
            == Some(CustomersValue(StampCustomers(seeds.customers, FallbackStoreId(kv))))
  {
    var t := Steps(kv, nowIso, seeds, src);
    StepFacts(kv, nowIso, seeds, src);
    ReadsFollowSlots(t.kv1, kv);
    ReadsFollowSlots(t.kv2, t.kv1);
    assert Slot(t.kv3, CustomersKey) == Some(CustomersValue(StampCustomers(seeds.customers, t.storeId)));
    assert t.kv6 == t.kv5;
  }

  /** After one run every product has an owning store. */
  lemma InitOwnsProducts(kv: Kv, nowIso: string, seeds: Seeds, src: CodeSource)
    ensures forall p :: p in GetProducts(InitializeData(kv, nowIso, seeds, src)) ==> p.storeId != ""
  {
    var r := InitializeData(kv, nowIso, seeds, src);
    forall p | p in GetProducts(r) ensures p.storeId != "" {
      InitProducts(kv, nowIso, seeds, src);
      var i :| 0 <= i < |GetProducts(r)| && GetProducts(r)[i] == p;
    }
  }

  /** After one run every customer has an owning store. */
  lemma InitOwnsCustomers(kv: Kv, nowIso: string, seeds: Seeds, src: CodeSource)
    ensures forall c :: c in GetCustomers(InitializeData(kv, nowIso, seeds, src)) ==> c.storeId != ""
  {
    var r := InitializeData(kv, nowIso, seeds, src);
    forall c | c in GetCustomers(r) ensures c.storeId != "" {
      InitCustomers(kv, nowIso, seeds, src);
      var i :| 0 <= i < |GetCustomers(r)| && GetCustomers(r)[i] == c;
    }
  }

  /** One run of `InitializeData` leaves the storage settled. */
  lemma InitSettles(kv: Kv, nowIso: string, seeds: Seeds, src: CodeSource)
    ensures Settled(InitializeData(kv, nowIso, seeds, src), seeds)
  {
    InitUsers(kv, nowIso, seeds, src);
    InitSettlesSales(kv, nowIso, seeds, src);
    InitSettlesProducts(kv, nowIso, seeds, src);
    InitSettlesCustomers(kv, nowIso, seeds, src);
    InitOwnsProducts(kv, nowIso, seeds, src);
    InitOwnsCustomers(kv, nowIso, seeds, src);
  }

  /** After initialisation nothing needs initialising: a second run, at any time and with any random codes, changes nothing. */
  lemma InitIdempotent(kv: Kv, nowIso: string, seeds: Seeds, src: CodeSource, nowIso2: string, src2: CodeSource)
    ensures var r := InitializeData(kv, nowIso, seeds, src);
            InitializeData(r, nowIso2, seeds, src2) == r
  {
    InitSettles(kv, nowIso, seeds, src);
    SettledIsFixpoint(InitializeData(kv, nowIso, seeds, src), nowIso2, seeds, src2);
  }
}
