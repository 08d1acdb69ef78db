/**
 * The dashboard figures (lib/dashboard-utils.ts): totals over completed
 * sales, profit against product costs, stock warnings, the last seven days,
 * the best-selling products and the split by payment method.
 *
 * The seven calendar days are `dayKey(today - 6)`, ..., `dayKey(today)`:
 * `today` is a day number and `dayKey` renders a day as the "YYYY-MM-DD"
 * text that `toISOString().split("T")[0]` produces.
 */
module DashboardUtils {
  import opened Wrappers
  import opened Types
  import opened Seqs
  import opened Grouping

  /** One of the seven day rows. */
  datatype DayRow = DayRow(date: string, total: int, count: nat)

  /** One best-selling product. */
  datatype TopRow = TopRow(productId: string, name: string, quantity: int, revenue: int)

  /** One payment method's share. */
  datatype MethodRow = MethodRow(methodKey: string, total: int, count: nat)

  /** `DashboardStats` of lib/types.ts. */
  datatype DashboardStats = DashboardStats(
    totalSales: nat,
    totalRevenue: int,
    totalProfit: int,
    totalCustomers: nat,
    totalProducts: nat,
    lowStockProducts: nat,
    salesByDay: seq<DayRow>,
    topProducts: seq<TopRow>,
    salesByPaymentMethod: seq<MethodRow>)

  /** Products below this stock level count as low on stock. */
  const LowStockBelow: int := 10

  /** How many best sellers the dashboard lists. */
  const TopCount: nat := 5

  // ---------------------------------------------------------------------------
  // Sales totals and profit (shared with the reports page)

  predicate IsCompleted(s: Sale) { s.status == Completed }

  function SaleTotal(s: Sale): int { s.total }

  /** `sales.filter((s) => s.status === "completed")`. */
  function CompletedSales(sales: seq<Sale>): (r: seq<Sale>)
    ensures forall s :: s in r <==> s in sales && s.status == Completed
    ensures forall s: Sale :: s.status == Completed ==> multiset(r)[s] == multiset(sales)[s]
    ensures IsSubseq(r, sales)
    ensures |r| <= |sales|
  {
    FilterIsSubseq(sales, IsCompleted);
    Filter(sales, IsCompleted)
  }

  /** The sum of the sales' totals. */
  function Revenue(sales: seq<Sale>): int {
    SumOf(sales, SaleTotal)
  }

  /** `products.find((p) => p.id === id)`: the first product with this id, whatever its store. */
  function FindProduct(products: seq<Product>, id: string): (r: Option<Product>)
    ensures r.Some? ==> r.value in products && r.value.id == id
    ensures r.Some? ==> IsFirstMatch(products, (p: Product) => p.id == id, r.value)
    ensures r.None? <==> forall j :: 0 <= j < |products| ==> products[j].id != id
  {
    Find(products, (p: Product) => p.id == id)
  }

  /** The cost of an item: the product's unit cost times the quantity, or 0 for an unknown product. */
  function ItemCost(item: SaleItem, products: seq<Product>): (r: int)
    ensures (forall j :: 0 <= j < |products| ==> products[j].id != item.productId) ==> r == 0
    ensures FindProduct(products, item.productId).Some? ==>
              r == FindProduct(products, item.productId).value.cost * item.quantity
  {
    match FindProduct(products, item.productId)
    case None => 0
    case Some(p) => p.cost * item.quantity
  }

  /** The profit of a list of items: each item's total less its cost. */
  function ItemsProfit(items: seq<SaleItem>, products: seq<Product>): int {
    if items == [] then 0 else items[0].total - ItemCost(items[0], products) + ItemsProfit(items[1..], products)
  }

  /** The summed profit of a list of sales. */
  function SalesProfit(sales: seq<Sale>, products: seq<Product>): int {
    if sales == [] then 0 else ItemsProfit(sales[0].items, products) + SalesProfit(sales[1..], products)
  }

  /** All items of all sales, sale by sale. */
  function AllItems(sales: seq<Sale>): seq<SaleItem> {
    if sales == [] then [] else sales[0].items + AllItems(sales[1..])
  }

  function ItemTotal(i: SaleItem): int { i.total }

  /** Items whose product is not in the catalogue cost nothing: their profit is their total. */
  lemma {:induction false} UncataloguedProfit(items: seq<SaleItem>, products: seq<Product>)
    requires forall i, j :: 0 <= i < |items| && 0 <= j < |products| ==> products[j].id != items[i].productId
    ensures ItemsProfit(items, products) == SumOf(items, ItemTotal)
    decreases |items|
  {
    if items != [] {
      UncataloguedProfit(items[1..], products);
    }
  }

  /** Profit is additive over the items of all sales. */
  lemma {:induction false} SalesProfitIsItemsProfit(sales: seq<Sale>, products: seq<Product>)
    ensures SalesProfit(sales, products) == ItemsProfit(AllItems(sales), products)
    decreases |sales|
  {
    if sales != [] {
      SalesProfitIsItemsProfit(sales[1..], products);
      ItemsProfitAppend(sales[0].items, AllItems(sales[1..]), products);
    }
  }

  /** The profit of two item lists together is the sum of their profits. */
  lemma {:induction false} ItemsProfitAppend(a: seq<SaleItem>, b: seq<SaleItem>, products: seq<Product>)
    ensures ItemsProfit(a + b, products) == ItemsProfit(a, products) + ItemsProfit(b, products)
    decreases |a|
  {
    if a == [] {
      assert a + b == b;
    } else {
      assert (a + b)[1..] == a[1..] + b;
      ItemsProfitAppend(a[1..], b, products);
    }
  }

  // ---------------------------------------------------------------------------
  // Products

  predicate IsActiveProduct(p: Product) { p.active }

  predicate IsLowStock(p: Product) { p.stock < LowStockBelow && p.active }

  /** `products.filter((p) => p.stock < 10 && p.active).length`, which never exceeds the active count. */
  function LowStockCount(products: seq<Product>): (r: nat)
    ensures r <= |Filter(products, IsActiveProduct)|
    ensures r == |Filter(products, IsLowStock)|
  {
    FilterStronger(products, IsLowStock, IsActiveProduct);
    |Filter(products, IsLowStock)|
  }

  // ---------------------------------------------------------------------------
  // The last seven days

  /** The sales whose `createdAt` starts with `date`. */
  function DaySales(sales: seq<Sale>, date: string): (r: seq<Sale>)
    ensures forall s :: s in r <==> s in sales && date <= s.createdAt
    ensures forall s: Sale :: date <= s.createdAt ==> multiset(r)[s] == multiset(sales)[s]
    ensures IsSubseq(r, sales)
    ensures |r| <= |sales|
  {
    FilterIsSubseq(sales, (s: Sale) => date <= s.createdAt);
    Filter(sales, (s: Sale) => date <= s.createdAt)
  }

  /** `getLast7DaysSales`: one row per day from six days ago to today. */
  function Last7DaysSales(sales: seq<Sale>, today: int, dayKey: int -> string): (r: seq<DayRow>)
    ensures |r| == 7
    ensures r[6].date == dayKey(today)
    ensures forall i :: 0 <= i < 7 ==> r[i].date == dayKey(today - 6 + i)
    ensures forall i :: 0 <= i < 7 ==>
              r[i].count == |DaySales(sales, r[i].date)| <= |sales| &&
              r[i].total == Revenue(DaySales(sales, r[i].date))
  {
    seq(7, i requires 0 <= i < 7 =>
      var date := dayKey(today - (6 - i));
      var day := DaySales(sales, date);
      DayRow(date, Revenue(day), |day|))
  }

  /** Two different dates of the same length never share a sale, so each sale is counted on one day at most. */
  lemma DaysDisjoint(sales: seq<Sale>, d1: string, d2: string)
    requires |d1| == |d2| && d1 != d2
    ensures forall s :: s in DaySales(sales, d1) ==> s !in DaySales(sales, d2)
  {
    forall s | s in DaySales(sales, d1)
      ensures s !in DaySales(sales, d2)
    {
      assert d1 == s.createdAt[..|d1|];
    }
  }

  // ---------------------------------------------------------------------------
  // Best sellers

  function ItemEntry(item: SaleItem): Entry {
    Entry(item.productId, item.productName, item.quantity, item.total)
  }

  /** The items as grouping entries: product id, product name, quantity, line total. */
  function ItemEntries(items: seq<SaleItem>): (r: seq<Entry>)
    ensures |r| == |items|
    ensures forall i :: 0 <= i < |items| ==> r[i] == ItemEntry(items[i])
  {
    seq(|items|, i requires 0 <= i < |items| => ItemEntry(items[i]))
  }

  /** The grouping entries of every item of every sale. */
  function SaleItemEntries(sales: seq<Sale>): seq<Entry> {
    ItemEntries(AllItems(sales))
  }

  /**
   * The per-product accumulation of all items of `sales`, largest revenue
   * first, cut to `n` groups. Each group's `sumA` is the product's total
   * quantity, `sumB` its revenue, `name` the name on its first item.
   */
  function TopGroups(sales: seq<Sale>, n: nat): (r: seq<Group>)
    ensures |r| <= n
    ensures SortedDesc(r, SumBOf) && Keyed(r)
    ensures forall i :: 0 <= i < |r| ==> Describes(r[i], SaleItemEntries(sales))
    ensures forall g, t :: g in Tally(SaleItemEntries(sales)) && g !in r && t in r ==> t.sumB >= g.sumB
    ensures |Tally(SaleItemEntries(sales))| <= n ==> forall g :: g in Tally(SaleItemEntries(sales)) ==> g in r
  {
    var gs := Tally(SaleItemEntries(sales));
    TopFacts(gs, SaleItemEntries(sales), n);
    TopBySumB(gs, n)
  }

  /** The top groups of an exact grouping describe their keys, and outrank every group left out. */
  lemma TopFacts(gs: seq<Group>, es: seq<Entry>, n: nat)
    requires AllDescribe(gs, es)
    ensures forall i :: 0 <= i < |TopBySumB(gs, n)| ==> Describes(TopBySumB(gs, n)[i], es)
    ensures forall g, t :: g in gs && g !in TopBySumB(gs, n) && t in TopBySumB(gs, n) ==> t.sumB >= g.sumB
  {
    var top := TopBySumB(gs, n);
    forall g, t | g in gs && g !in top && t in top
      ensures t.sumB >= g.sumB
    {
      TopIsTop(gs, n, g);
    }
    forall i | 0 <= i < |top|
      ensures Describes(top[i], es)
    {
      assert top[i] in gs;
      var j :| 0 <= j < |gs| && gs[j] == top[i];
    }
  }

  function TopRowOf(g: Group): TopRow {
    TopRow(g.key, g.name, g.sumA, g.sumB)
  }

  /** The rows of a list of groups. */
  function TopRows(gs: seq<Group>): (r: seq<TopRow>)
    ensures |r| == |gs|
    ensures forall i :: 0 <= i < |gs| ==> r[i] == TopRowOf(gs[i])
  {
    seq(|gs|, i requires 0 <= i < |gs| => TopRowOf(gs[i]))
  }

  /**
   * `getTopProducts`: at most five products, distinct, by non-increasing
   * revenue; each row's quantity and revenue are the sums over the items of
   * that product and its name is the one on the product's first item.
   */
  function TopProducts(sales: seq<Sale>): (r: seq<TopRow>)
    ensures |r| <= TopCount
    ensures forall i, j :: 0 <= i < j < |r| ==> r[i].revenue >= r[j].revenue && r[i].productId != r[j].productId
    ensures forall i :: 0 <= i < |r| ==>
              var es := SaleItemEntries(sales);
              && Pos(es, r[i].productId) < |es|
              && r[i].name == es[Pos(es, r[i].productId)].name
              && r[i].quantity == SumA(es, r[i].productId)
              && r[i].revenue == SumB(es, r[i].productId)
    ensures forall g, i :: g in Tally(SaleItemEntries(sales)) && TopRowOf(g) !in r && 0 <= i < |r| ==>
              r[i].revenue >= g.sumB
    ensures |Tally(SaleItemEntries(sales))| <= TopCount ==>
              forall g :: g in Tally(SaleItemEntries(sales)) ==> TopRowOf(g) in r
  {
    var gs := TopGroups(sales, TopCount);
    TopRowsOfTop(Tally(SaleItemEntries(sales)), gs, SaleItemEntries(sales), TopCount);
    TopRows(gs)
  }

  /**
   * Rows of the top groups: each row describes its product, rows are
   * distinct and by non-increasing revenue, a group whose row is missing is
   * outranked by every row, and when no group was cut every group has its row.
   */
  lemma TopRowsOfTop(all: seq<Group>, top: seq<Group>, es: seq<Entry>, n: nat)
    requires SortedDesc(top, SumBOf) && Keyed(top)
    requires forall i :: 0 <= i < |top| ==> Describes(top[i], es)
    requires forall g, t :: g in all && g !in top && t in top ==> t.sumB >= g.sumB
    requires |all| <= n ==> forall g :: g in all ==> g in top
    ensures forall i, j :: 0 <= i < j < |top| ==>
              TopRows(top)[i].revenue >= TopRows(top)[j].revenue && TopRows(top)[i].productId != TopRows(top)[j].productId
    ensures forall i :: 0 <= i < |top| ==>
              var r := TopRows(top);
              && Pos(es, r[i].productId) < |es|
              && r[i].name == es[Pos(es, r[i].productId)].name
              && r[i].quantity == SumA(es, r[i].productId)
              && r[i].revenue == SumB(es, r[i].productId)
    ensures forall g, i :: g in all && TopRowOf(g) !in TopRows(top) && 0 <= i < |top| ==>
              TopRows(top)[i].revenue >= g.sumB
    ensures |all| <= n ==> forall g :: g in all ==> TopRowOf(g) in TopRows(top)
  {
    var r := TopRows(top);
    forall t | t in top
      ensures TopRowOf(t) in r
    {
      var j :| 0 <= j < |top| && top[j] == t;
      assert r[j] == TopRowOf(t);
    }
    forall g, i | g in all && TopRowOf(g) !in r && 0 <= i < |top|
      ensures r[i].revenue >= g.sumB
    {
      assert top[i] in top;
    }
  }

  // ---------------------------------------------------------------------------
  // Payment methods

  function PaymentEntry(s: Sale): Entry {
    Entry(PaymentMethodKey(s.paymentMethod), PaymentMethodKey(s.paymentMethod), s.total, 0)
  }

  /** The sales as grouping entries by payment method name, with the sale total as amount. */
  function PaymentEntries(sales: seq<Sale>): (r: seq<Entry>)
    ensures |r| == |sales|
    ensures forall i :: 0 <= i < |sales| ==> r[i] == PaymentEntry(sales[i])
  {
    seq(|sales|, i requires 0 <= i < |sales| => PaymentEntry(sales[i]))
  }

  function MethodRowOf(g: Group): MethodRow {
    MethodRow(g.key, g.sumA, g.count)
  }

  function MethodCount(m: MethodRow): int { m.count }
  function MethodTotal(m: MethodRow): int { m.total }

  /** The rows of a list of groups; their counts and totals add up like the groups'. */
  function MethodRows(gs: seq<Group>): (r: seq<MethodRow>)
    ensures |r| == |gs|
    ensures forall i :: 0 <= i < |gs| ==> r[i] == MethodRowOf(gs[i])
    ensures SumOf(r, MethodCount) == SumOf(gs, CountOf)
    ensures SumOf(r, MethodTotal) == SumOf(gs, SumAOf)
  {
    if gs == [] then [] else [MethodRowOf(gs[0])] + MethodRows(gs[1..])
  }

  /**
   * `getSalesByPaymentMethod`: one row per method that occurs, in the order
   * methods first occur, with that method's sale count and summed totals.
   */
  function SalesByPaymentMethod(sales: seq<Sale>): (r: seq<MethodRow>)
    ensures forall i, j :: 0 <= i < j < |r| ==> r[i].methodKey != r[j].methodKey
    ensures forall i :: 0 <= i < |r| ==>
              var es := PaymentEntries(sales);
              && Pos(es, r[i].methodKey) < |es|
              && r[i].count == Count(es, r[i].methodKey)
              && r[i].total == SumA(es, r[i].methodKey)
    ensures forall i, j :: 0 <= i < j < |r| ==>
              Pos(PaymentEntries(sales), r[i].methodKey) < Pos(PaymentEntries(sales), r[j].methodKey)
    ensures forall n :: 0 <= n < |sales| ==> MethodListed(r, sales[n].paymentMethod)
    ensures SumOf(r, MethodCount) == |sales|
    ensures SumOf(r, MethodTotal) == Revenue(sales)
  {
    var es := PaymentEntries(sales);
    var gs := Tally(es);
    TallyTotals(es);
    PaymentTotals(sales);
    PaymentCovered(sales, gs);
    MethodRows(gs)
  }

  /** Some row is the method's. */
  predicate MethodListed(rows: seq<MethodRow>, m: PaymentMethod) {
    exists i :: 0 <= i < |rows| && rows[i].methodKey == PaymentMethodKey(m)
  }

  /** Every sale's method has its row. */
  lemma PaymentCovered(sales: seq<Sale>, gs: seq<Group>)
    requires Covers(gs, PaymentEntries(sales))
    ensures forall n :: 0 <= n < |sales| ==> MethodListed(MethodRows(gs), sales[n].paymentMethod)
  {
    var es := PaymentEntries(sales);
    var r := MethodRows(gs);
    forall n | 0 <= n < |sales|
      ensures MethodListed(r, sales[n].paymentMethod)
    {
      assert HasGroup(gs, es[n].key);
      var i: nat :| i < |gs| && gs[i].key == es[n].key;
      assert r[i].methodKey == PaymentMethodKey(sales[n].paymentMethod);
    }
  }

  /** The payment entries' amounts add up to the revenue. */
  lemma {:induction false} PaymentTotals(sales: seq<Sale>)
    ensures SumOf(PaymentEntries(sales), EntryA) == Revenue(sales)
    decreases |sales|
  {
    if sales != [] {
      PaymentTotals(sales[1..]);
      assert PaymentEntries(sales)[1..] == PaymentEntries(sales[1..]);
    }
  }

  // ---------------------------------------------------------------------------
  // The whole figure set

  /**
   * `calculateDashboardStats`: every sales figure is computed over the
   * completed sales only; product figures count active products.
   */
  function CalculateDashboardStats(sales: seq<Sale>, products: seq<Product>, customers: seq<Customer>,
                                   today: int, dayKey: int -> string): (r: DashboardStats)
    ensures r.totalSales == |CompletedSales(sales)|
    ensures r.totalRevenue == Revenue(CompletedSales(sales))
    ensures r.totalProfit == ItemsProfit(AllItems(CompletedSales(sales)), products)
    ensures r.totalCustomers == |customers|
    ensures r.totalProducts == |Filter(products, IsActiveProduct)|
    ensures r.lowStockProducts <= r.totalProducts
    ensures |r.salesByDay| == 7 && |r.topProducts| <= TopCount
    ensures r.lowStockProducts == LowStockCount(products)
    ensures r.salesByDay == Last7DaysSales(CompletedSales(sales), today, dayKey)
    ensures r.topProducts == TopProducts(CompletedSales(sales))
    ensures r.salesByPaymentMethod == SalesByPaymentMethod(CompletedSales(sales))
    ensures SumOf(r.salesByPaymentMethod, MethodCount) == r.totalSales
    ensures SumOf(r.salesByPaymentMethod, MethodTotal) == r.totalRevenue
  {
    StatsOfCompleted(CompletedSales(sales), products, customers, today, dayKey)
  }

  /** The figures, given the completed sales. */
  function StatsOfCompleted(completed: seq<Sale>, products: seq<Product>, customers: seq<Customer>,
                            today: int, dayKey: int -> string): (r: DashboardStats)
    ensures r.totalSales == |completed|
    ensures r.totalRevenue == Revenue(completed)
    ensures r.totalProfit == ItemsProfit(AllItems(completed), products)
    ensures r.totalCustomers == |customers|
    ensures r.totalProducts == |Filter(products, IsActiveProduct)|
    ensures r.lowStockProducts <= r.totalProducts
    ensures |r.salesByDay| == 7 && |r.topProducts| <= TopCount
    ensures r.lowStockProducts == LowStockCount(products)
    ensures r.salesByDay == Last7DaysSales(completed, today, dayKey)
    ensures r.topProducts == TopProducts(completed)
    ensures r.salesByPaymentMethod == SalesByPaymentMethod(completed)
    ensures SumOf(r.salesByPaymentMethod, MethodCount) == r.totalSales
    ensures SumOf(r.salesByPaymentMethod, MethodTotal) == r.totalRevenue
  {
    SalesProfitIsItemsProfit(completed, products);
    DashboardStats(
      |completed|,
      Revenue(completed),
      SalesProfit(completed, products),
      |customers|,
      |Filter(products, IsActiveProduct)|,
      LowStockCount(products),
      Last7DaysSales(completed, today, dayKey),
      TopProducts(completed),
      SalesByPaymentMethod(completed))
  }

  /** A sale that is not completed changes none of the figures. */
  lemma IncompleteSaleIgnored(sales: seq<Sale>, s: Sale, products: seq<Product>, customers: seq<Customer>,
                              today: int, dayKey: int -> string)
    requires s.status != Completed
    ensures CalculateDashboardStats(sales + [s], products, customers, today, dayKey)
         == CalculateDashboardStats(sales, products, customers, today, dayKey)
  {
    FilterSnoc(sales, s, IsCompleted);
    assert CompletedSales(sales + [s]) == CompletedSales(sales);
  }
}
