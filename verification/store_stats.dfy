/**
 * Per-store figures for the administrator's store list (lib/store-stats.ts).
 * The collections the source reads from storage are parameters.
 */
module StoreStatistics {
  import opened Wrappers
  import opened Types
  import opened Seqs
  import opened DashboardUtils

  /** `StoreStats`. */
  datatype StoreStats = StoreStats(
    storeId: string,
    totalRevenue: int,
    totalSales: nat,
    totalProducts: nat,
    totalCustomers: nat,
    lastActivity: Option<string>)

  /** The store's completed sales. */
  function StoreSales(sales: seq<Sale>, storeId: string): (r: seq<Sale>)
    ensures forall s :: s in r <==> s in sales && s.storeId == storeId && s.status == Completed
    ensures forall s: Sale :: s.storeId == storeId && s.status == Completed ==> multiset(r)[s] == multiset(sales)[s]
    ensures IsSubseq(r, sales)
  {
    FilterIsSubseq(sales, (s: Sale) => s.storeId == storeId && s.status == Completed);
    Filter(sales, (s: Sale) => s.storeId == storeId && s.status == Completed)
  }

  /** The store's active products. */
  function StoreProducts(products: seq<Product>, storeId: string): (r: seq<Product>)
    ensures forall p :: p in r <==> p in products && p.storeId == storeId && p.active
    ensures forall p: Product :: p.storeId == storeId && p.active ==> multiset(r)[p] == multiset(products)[p]
    ensures IsSubseq(r, products)
  {
    FilterIsSubseq(products, (p: Product) => p.storeId == storeId && p.active);
    Filter(products, (p: Product) => p.storeId == storeId && p.active)
  }

  /** The store's customers. */
  function StoreCustomers(customers: seq<Customer>, storeId: string): (r: seq<Customer>)
    ensures forall c :: c in r <==> c in customers && c.storeId == storeId
    ensures forall c: Customer :: c.storeId == storeId ==> multiset(r)[c] == multiset(customers)[c]
    ensures IsSubseq(r, customers)
  {
    FilterIsSubseq(customers, (c: Customer) => c.storeId == storeId);
    Filter(customers, (c: Customer) => c.storeId == storeId)
  }

  /**
   * The first `createdAt` after sorting by descending `localeCompare`: the
   * greatest creation stamp in lexicographic order, or none for no sales.
   */
  function Latest(ss: seq<Sale>): (r: Option<string>)
    ensures r.None? <==> ss == []
    ensures r.Some? ==> exists i :: 0 <= i < |ss| && ss[i].createdAt == r.value
    ensures r.Some? ==> forall i :: 0 <= i < |ss| ==> LexLe(ss[i].createdAt, r.value)
  {
    if ss == [] then None
    else
      var here := ss[0].createdAt;
      match Latest(ss[1..])
      case None =>
        LexLeTotal(here, here);
        Some(here)
      case Some(m) =>
        LexLeTotal(here, m);
        LatestStep(ss, m);
        if LexLe(here, m) then Some(m) else Some(here)
  }

  /** The maximum of the tail, compared with the head, bounds every element. */
  lemma LatestStep(ss: seq<Sale>, m: string)
    requires ss != []
    requires forall i :: 0 <= i < |ss| - 1 ==> LexLe(ss[1..][i].createdAt, m)
    ensures LexLe(ss[0].createdAt, m) ==> forall i :: 0 <= i < |ss| ==> LexLe(ss[i].createdAt, m)
    ensures !LexLe(ss[0].createdAt, m) ==> forall i :: 0 <= i < |ss| ==> LexLe(ss[i].createdAt, ss[0].createdAt)
  {
    var h := ss[0].createdAt;
    if !LexLe(h, m) {
      LexLeTotal(h, m);
      forall i | 0 <= i < |ss|
        ensures LexLe(ss[i].createdAt, h)
      {
        if i == 0 {
          LexLeTotal(h, h);
        } else {
          assert LexLe(ss[1..][i - 1].createdAt, m);
          LexLeTransitive(ss[i].createdAt, m, h);
        }
      }
    } else {
      forall i | 0 <= i < |ss|
        ensures LexLe(ss[i].createdAt, m)
      {
        if i > 0 {
          assert ss[i] == ss[1..][i - 1];
        }
      }
    }
  }

  /**
   * `calculateStoreStats`: revenue and count over the store's completed
   * sales, its active products, its customers, and the latest sale stamp.
   */
  function CalculateStoreStats(storeId: string, sales: seq<Sale>, products: seq<Product>,
                               customers: seq<Customer>): (r: StoreStats)
    ensures r.storeId == storeId
    ensures r.totalSales == |StoreSales(sales, storeId)|
    ensures r.totalRevenue == Revenue(StoreSales(sales, storeId))
    ensures r.totalProducts == |StoreProducts(products, storeId)|
    ensures r.totalCustomers == |StoreCustomers(customers, storeId)|
    ensures r.lastActivity.None? <==> forall s :: s in sales ==> !(s.storeId == storeId && s.status == Completed)
    ensures r.lastActivity.Some? ==>
              (exists s :: s in sales && s.storeId == storeId && s.status == Completed && s.createdAt == r.lastActivity.value)
              && forall s :: s in sales && s.storeId == storeId && s.status == Completed ==>
                   LexLe(s.createdAt, r.lastActivity.value)
  {
    var ss := StoreSales(sales, storeId);
    LatestOfStore(sales, storeId);
    StoreStats(storeId, Revenue(ss), |ss|, |StoreProducts(products, storeId)|,
               |StoreCustomers(customers, storeId)|, Latest(ss))
  }

  /** `Latest` over the store's completed sales, stated over all sales. */
  lemma LatestOfStore(sales: seq<Sale>, storeId: string)
    ensures var last := Latest(StoreSales(sales, storeId));
            && (last.None? <==> forall s :: s in sales ==> !(s.storeId == storeId && s.status == Completed))
            && (last.Some? ==>
                  (exists s :: s in sales && s.storeId == storeId && s.status == Completed && s.createdAt == last.value)
                  && forall s :: s in sales && s.storeId == storeId && s.status == Completed ==>
                       LexLe(s.createdAt, last.value))
  {
    var ss := StoreSales(sales, storeId);
    var last := Latest(ss);
    if last.Some? {
      var i :| 0 <= i < |ss| && ss[i].createdAt == last.value;
      assert ss[i] in ss;
      forall s | s in sales && s.storeId == storeId && s.status == Completed
        ensures LexLe(s.createdAt, last.value)
      {
        assert s in ss;
        var j :| 0 <= j < |ss| && ss[j] == s;
      }
    } else {
      assert ss == [];
    }
  }

  /** A sale of another store, or one not completed, changes none of a store's figures. */
  lemma ForeignSaleIgnored(storeId: string, sales: seq<Sale>, s: Sale, products: seq<Product>,
                           customers: seq<Customer>)
    requires s.storeId != storeId || s.status != Completed
    ensures CalculateStoreStats(storeId, sales + [s], products, customers)
         == CalculateStoreStats(storeId, sales, products, customers)
  {
    FilterSnoc(sales, s, (x: Sale) => x.storeId == storeId && x.status == Completed);
    assert StoreSales(sales + [s], storeId) == StoreSales(sales, storeId);
  }

  /** The ids of the stores. */
  function StoreIds(stores: seq<Store>): set<string> {
    set st | st in stores :: st.id
  }

  /** `getAllStoresStats`: a record keyed by every store id, each value the stats of its key. */
  function GetAllStoresStats(stores: seq<Store>, sales: seq<Sale>, products: seq<Product>,
                             customers: seq<Customer>): (r: map<string, StoreStats>)
    ensures forall st :: st in stores ==> st.id in r
    ensures forall k :: k in r ==> exists st :: st in stores && st.id == k
    ensures forall k :: k in r ==> r[k].storeId == k
    ensures forall k :: k in r ==> r[k] == CalculateStoreStats(k, sales, products, customers)
  {
    map k | k in StoreIds(stores) :: CalculateStoreStats(k, sales, products, customers)
  }

  /**
   * Recording a sale keeps the set of stores reported and changes at most the
   * entry of the sale's own store, and that only when the sale is completed.
   */
  lemma SaleTouchesOnlyItsStore(stores: seq<Store>, sales: seq<Sale>, s: Sale, products: seq<Product>,
                                customers: seq<Customer>)
    ensures GetAllStoresStats(stores, sales + [s], products, customers).Keys
         == GetAllStoresStats(stores, sales, products, customers).Keys
    ensures forall k :: k in GetAllStoresStats(stores, sales, products, customers) && (k != s.storeId || s.status != Completed) ==>
              GetAllStoresStats(stores, sales + [s], products, customers)[k]
              == GetAllStoresStats(stores, sales, products, customers)[k]
  {
    var before := GetAllStoresStats(stores, sales, products, customers);
    var after := GetAllStoresStats(stores, sales + [s], products, customers);
    forall k | k in before && (k != s.storeId || s.status != Completed)
      ensures after[k] == before[k]
    {
      ForeignSaleIgnored(k, sales, s, products, customers);
    }
  }
}
