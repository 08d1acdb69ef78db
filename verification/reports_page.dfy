/**
 * The reports page (app/reports/page.tsx): completed sales of a chosen
 * period, their totals, average ticket and profit, and their breakdown by
 * day, by product and by payment method.
 *
 * The page reads every sale and product in storage, whatever the active
 * store. Turning an ISO stamp into an instant is the parameter `instant`;
 * the period's bounds arrive as instants, the end one already moved to the
 * last millisecond of its day.
 */
module ReportsPage {
  import opened Wrappers
  import opened Types
  import opened Seqs
  import opened Storage
  import opened Grouping
  import opened DashboardUtils
  import opened Labels

  /** The chosen date range; an empty date field imposes no bound. */
  datatype Period = Period(start: Option<int>, endOfDay: Option<int>)

  /** `filteredSales`' condition: completed, not before the start, not after the end of the last day. */
  predicate InPeriod(s: Sale, instant: string -> int, period: Period) {
    && s.status == Completed
    && (period.start.Some? ==> period.start.value <= instant(s.createdAt))
    && (period.endOfDay.Some? ==> instant(s.createdAt) <= period.endOfDay.value)
  }

  /** `filteredSales`, over all stored sales. */
  function ReportSales(kv: Kv, instant: string -> int, period: Period): (r: seq<Sale>)
    ensures forall s :: s in r <==>
              && s in GetSales(kv) && s.status == Completed
              && (period.start.Some? ==> period.start.value <= instant(s.createdAt))
              && (period.endOfDay.Some? ==> instant(s.createdAt) <= period.endOfDay.value)
    ensures forall s: Sale :: InPeriod(s, instant, period) ==> multiset(r)[s] == multiset(GetSales(kv))[s]
    ensures IsSubseq(r, GetSales(kv))
  {
    FilterIsSubseq(GetSales(kv), (s: Sale) => InPeriod(s, instant, period));
    Filter(GetSales(kv), (s: Sale) => InPeriod(s, instant, period))
  }

  /** With both date fields empty the report covers exactly the completed sales. */
  lemma UnboundedPeriodIsCompleted(kv: Kv, instant: string -> int)
    ensures ReportSales(kv, instant, Period(None, None)) == CompletedSales(GetSales(kv))
  {
    FilterAgree(GetSales(kv), (s: Sale) => InPeriod(s, instant, Period(None, None)), IsCompleted);
  }

  /** `wide` contains `narrow`: its bounds, where it has them, are no tighter. */
  predicate Within(narrow: Period, wide: Period) {
    && (wide.start.Some? ==> narrow.start.Some? && wide.start.value <= narrow.start.value)
    && (wide.endOfDay.Some? ==> narrow.endOfDay.Some? && narrow.endOfDay.value <= wide.endOfDay.value)
  }

  /** Widening the period loses no sale. */
  lemma WiderPeriodKeepsSales(kv: Kv, instant: string -> int, narrow: Period, wide: Period)
    requires Within(narrow, wide)
    ensures forall s :: s in ReportSales(kv, instant, narrow) ==> s in ReportSales(kv, instant, wide)
    ensures |ReportSales(kv, instant, narrow)| <= |ReportSales(kv, instant, wide)|
  {
    FilterStronger(GetSales(kv), (s: Sale) => InPeriod(s, instant, narrow), (s: Sale) => InPeriod(s, instant, wide));
  }

  // ---------------------------------------------------------------------------
  // Headline figures

  datatype Summary = Summary(totalRevenue: int, totalSales: nat, averageTicket: real, totalProfit: int)

  /**
   * `totalRevenue`, `totalSales`, `averageTicket` (0 without sales) and
   * `totalProfit` (item totals less catalogue cost) of the filtered sales.
   */
  function Summarise(filtered: seq<Sale>, products: seq<Product>): (r: Summary)
    ensures r.totalSales == |filtered|
    ensures r.totalRevenue == SumOf(filtered, SaleTotal)
    ensures r.averageTicket == AverageTicket(r.totalRevenue, r.totalSales)
    ensures r.totalProfit == ItemsProfit(AllItems(filtered), products)
  {
    SalesProfitIsItemsProfit(filtered, products);
    Summary(Revenue(filtered), |filtered|, AverageTicket(Revenue(filtered), |filtered|),
            SalesProfit(filtered, products))
  }

  /** `totalSales > 0 ? totalRevenue / totalSales : 0`. */
  function AverageTicket(revenue: int, count: nat): (q: real)
    ensures count > 0 ==> q * count as real == revenue as real
    ensures count == 0 ==> q == 0.0
  {
    if count > 0 then revenue as real / count as real else 0.0
  }

  /** The average ticket lies between the smallest and the largest sale total. */
  lemma AverageWithinTotals(filtered: seq<Sale>, products: seq<Product>, lo: int, hi: int)
    requires filtered != []
    requires forall i :: 0 <= i < |filtered| ==> lo <= filtered[i].total <= hi
    ensures lo as real <= Summarise(filtered, products).averageTicket <= hi as real
  {
    var r := Summarise(filtered, products);
    assert |filtered| * lo <= r.totalRevenue <= |filtered| * hi by {
      SumOfBounds(filtered, SaleTotal, lo, hi);
    }
    QuotientBounds(r.totalRevenue, |filtered|, lo, hi, r.averageTicket);
  }

  /** A quotient of a sum by its number of terms lies between the terms' bounds. */
  lemma QuotientBounds(sum: int, n: nat, lo: int, hi: int, q: real)
    requires n > 0 && n * lo <= sum <= n * hi
    requires q * n as real == sum as real
    ensures lo as real <= q <= hi as real
  {
    assert (n * lo) as real == n as real * lo as real;
    assert (n * hi) as real == n as real * hi as real;
    LeOfMulLe(lo as real, q, n as real);
    LeOfMulLe(q, hi as real, n as real);
  }

  /** Multiplying by a positive factor keeps the order. */
  lemma LeOfMulLe(a: real, b: real, n: real)
    requires n > 0.0 && a * n <= b * n
    ensures a <= b
  {
    assert (b - a) * n == b * n - a * n;
  }

  // ---------------------------------------------------------------------------
  // Sales by day

  /** `createdAt.split("T")[0]`: the stamp up to its first 'T', or all of it without one. */
  function DatePart(stamp: string): (r: string)
    ensures r <= stamp
    ensures forall i :: 0 <= i < |r| ==> r[i] != 'T'
    ensures |r| < |stamp| ==> stamp[|r|] == 'T'
  {
    if stamp == [] || stamp[0] == 'T' then "" else [stamp[0]] + DatePart(stamp[1..])
  }

  /** An ISO stamp's date part is the text before its time. */
  lemma {:induction false} DateOfStamp(date: string, time: string)
    requires forall i :: 0 <= i < |date| ==> date[i] != 'T'
    ensures DatePart(date + "T" + time) == date
    decreases |date|
  {
    var stamp := date + "T" + time;
    if date == [] {
      assert stamp[0] == 'T';
    } else {
      assert stamp[0] == date[0];
      assert stamp[1..] == date[1..] + "T" + time;
      DateOfStamp(date[1..], time);
    }
  }

  /** A sale as a grouping entry: its day, its total, its profit. */
  function DayEntry(s: Sale, products: seq<Product>): Entry {
    var d := DatePart(s.createdAt);
    Entry(d, d, s.total, ItemsProfit(s.items, products))
  }

  function DayEntries(sales: seq<Sale>, products: seq<Product>): (r: seq<Entry>)
    ensures |r| == |sales|
    ensures forall i :: 0 <= i < |sales| ==> r[i] == DayEntry(sales[i], products)
  {
    seq(|sales|, i requires 0 <= i < |sales| => DayEntry(sales[i], products))
  }

  /** The day entries' totals are the revenue and the profit of the sales. */
  lemma {:induction false} DayTotals(sales: seq<Sale>, products: seq<Product>)
    ensures SumOf(DayEntries(sales, products), EntryA) == Revenue(sales)
    ensures SumOf(DayEntries(sales, products), EntryB) == SalesProfit(sales, products)
    decreases |sales|
  {
    if sales != [] {
      DayTotals(sales[1..], products);
      assert DayEntries(sales, products)[1..] == DayEntries(sales[1..], products);
    }
  }

  /** One row of the daily chart. */
  datatype ReportDay = ReportDay(date: string, revenue: int, count: nat, profit: int)

  function DayRowOf(g: Group): ReportDay {
    ReportDay(g.key, g.sumA, g.count, g.sumB)
  }

  function DayCount(d: ReportDay): int { d.count }
  function DayRevenue(d: ReportDay): int { d.revenue }
  function DayProfit(d: ReportDay): int { d.profit }

  /** The rows of a list of day groups; their counts and sums add up like the groups'. */
  function DayRows(gs: seq<Group>): (r: seq<ReportDay>)
    ensures |r| == |gs|
    ensures forall i :: 0 <= i < |gs| ==> r[i] == DayRowOf(gs[i])
    ensures SumOf(r, DayCount) == SumOf(gs, CountOf)
    ensures SumOf(r, DayRevenue) == SumOf(gs, SumAOf)
    ensures SumOf(r, DayProfit) == SumOf(gs, SumBOf)
  {
    if gs == [] then [] else [DayRowOf(gs[0])] + DayRows(gs[1..])
  }

  /** Some row is the day's. */
  predicate DayListed(rows: seq<ReportDay>, date: string) {
    exists i :: 0 <= i < |rows| && rows[i].date == date
  }

  /**
   * `salesByDay`: one row per day on which a filtered sale was made, in
   * ascending date order, with that day's revenue, sale count and profit.
   */
  function SalesByDay(filtered: seq<Sale>, products: seq<Product>): (r: seq<ReportDay>)
    ensures forall i, j :: 0 <= i < j < |r| ==> r[i].date != r[j].date && LexLe(r[i].date, r[j].date)
    ensures forall i :: 0 <= i < |r| ==>
              var es := DayEntries(filtered, products);
              && Pos(es, r[i].date) < |es|
              && r[i].count == Count(es, r[i].date)
              && r[i].revenue == SumA(es, r[i].date)
              && r[i].profit == SumB(es, r[i].date)
    ensures forall n :: 0 <= n < |filtered| ==> DayListed(r, DatePart(filtered[n].createdAt))
    ensures SumOf(r, DayCount) == |filtered|
    ensures SumOf(r, DayRevenue) == Revenue(filtered)
    ensures SumOf(r, DayProfit) == SalesProfit(filtered, products)
  {
    var es := DayEntries(filtered, products);
    var gs := Tally(es);
    var sorted := SortByKey(gs);
    SortByKeyKeepsKeyed(gs);
    SortByKeyKeepsSums(gs, CountOf);
    SortByKeyKeepsSums(gs, SumAOf);
    SortByKeyKeepsSums(gs, SumBOf);
    TallyTotals(es);
    DayTotals(filtered, products);
    PermutedSummary(gs, sorted, es);
    DaysCovered(filtered, products, sorted);
    DayRows(sorted)
  }

  /** Every filtered sale's day has its row. */
  lemma DaysCovered(filtered: seq<Sale>, products: seq<Product>, gs: seq<Group>)
    requires Covers(gs, DayEntries(filtered, products))
    ensures forall n :: 0 <= n < |filtered| ==> DayListed(DayRows(gs), DatePart(filtered[n].createdAt))
  {
    var es := DayEntries(filtered, products);
    forall n | 0 <= n < |filtered|
      ensures DayListed(DayRows(gs), DatePart(filtered[n].createdAt))
    {
      assert HasGroup(gs, es[n].key);
      var i: nat :| i < |gs| && gs[i].key == es[n].key;
      assert DayRows(gs)[i].date == DatePart(filtered[n].createdAt);
    }
  }

  // ---------------------------------------------------------------------------
  // Best sellers

  /** How many best sellers the report lists. */
  const ReportTopCount: nat := 10

  /** One row of the best-seller table: the product's name, units sold and revenue. */
  datatype ReportProduct = ReportProduct(name: string, quantity: int, revenue: int)

  function ProductRowOf(g: Group): ReportProduct {
    ReportProduct(g.name, g.sumA, g.sumB)
  }

  function ProductRows(gs: seq<Group>): (r: seq<ReportProduct>)
    ensures |r| == |gs|
    ensures forall i :: 0 <= i < |gs| ==> r[i] == ProductRowOf(gs[i])
  {
    seq(|gs|, i requires 0 <= i < |gs| => ProductRowOf(gs[i]))
  }

  /** `row` sums the items of some product: its first item's name, its units and its revenue. */
  ghost predicate SumsSomeProduct(row: ReportProduct, es: seq<Entry>) {
    exists k :: Pos(es, k) < |es| && row.name == es[Pos(es, k)].name
                && row.quantity == SumA(es, k) && row.revenue == SumB(es, k)
  }

  /**
   * `topProducts`: at most ten rows by non-increasing revenue, each the
   * summary of one product over the filtered sales' items; a product left
   * out earns no more than any listed one, and none is left out when fewer
   * than ten were sold.
   */
  function ReportTopProducts(filtered: seq<Sale>): (r: seq<ReportProduct>)
    ensures |r| <= ReportTopCount
    ensures forall i, j :: 0 <= i < j < |r| ==> r[i].revenue >= r[j].revenue
    ensures forall i :: 0 <= i < |r| ==> SumsSomeProduct(r[i], SaleItemEntries(filtered))
    ensures forall g, i :: g in Tally(SaleItemEntries(filtered)) && ProductRowOf(g) !in r && 0 <= i < |r| ==>
              r[i].revenue >= g.sumB
    ensures |Tally(SaleItemEntries(filtered))| <= ReportTopCount ==>
              forall g :: g in Tally(SaleItemEntries(filtered)) ==> ProductRowOf(g) in r
    // the rows are those of the best-selling groups, which are keyed by distinct products
    ensures r == ProductRows(TopGroups(filtered, ReportTopCount))
  {
    var top := TopGroups(filtered, ReportTopCount);
    RowsSumProducts(top, SaleItemEntries(filtered));
    RowsOutrank(Tally(SaleItemEntries(filtered)), top);
    RowsComplete(Tally(SaleItemEntries(filtered)), top);
    ProductRows(top)
  }

  /** Rows of groups that describe their products sum some product each. */
  lemma RowsSumProducts(top: seq<Group>, es: seq<Entry>)
    requires forall i :: 0 <= i < |top| ==> Describes(top[i], es)
    ensures forall i :: 0 <= i < |top| ==> SumsSomeProduct(ProductRows(top)[i], es)
  {
    forall i | 0 <= i < |top|
      ensures SumsSomeProduct(ProductRows(top)[i], es)
    {
      assert Describes(top[i], es);
      assert ProductRows(top)[i] == ProductRowOf(top[i]);
    }
  }

  /** A group whose row is missing was left out, so every kept row earns at least as much. */
  lemma RowsOutrank(gs: seq<Group>, top: seq<Group>)
    requires forall g, t :: g in gs && g !in top && t in top ==> t.sumB >= g.sumB
    ensures forall g, i :: g in gs && ProductRowOf(g) !in ProductRows(top) && 0 <= i < |top| ==>
              ProductRows(top)[i].revenue >= g.sumB
  {
    var r := ProductRows(top);
    forall g, i | g in gs && ProductRowOf(g) !in r && 0 <= i < |top|
      ensures r[i].revenue >= g.sumB
    {
      assert forall j :: 0 <= j < |top| ==> r[j] == ProductRowOf(top[j]);
      assert g !in top;
      assert top[i] in top;
    }
  }

  /** When every group is kept, every group has its row. */
  lemma RowsComplete(gs: seq<Group>, top: seq<Group>)
    ensures (forall g :: g in gs ==> g in top) ==> forall g :: g in gs ==> ProductRowOf(g) in ProductRows(top)
  {
    forall g | g in gs && (forall h :: h in gs ==> h in top)
      ensures ProductRowOf(g) in ProductRows(top)
    {
      var j :| 0 <= j < |top| && top[j] == g;
      assert ProductRows(top)[j] == ProductRowOf(g);
    }
  }

  // ---------------------------------------------------------------------------
  // Sales by payment method

  /** One row of the payment table: the method's display name, sale count and revenue. */
  datatype ReportPayment = ReportPayment(methodName: string, count: nat, revenue: int)

  function PaymentRowOf(m: MethodRow): ReportPayment {
    ReportPayment(MethodNameOrKey(m.methodKey), m.count, m.total)
  }

  function PaymentCount(p: ReportPayment): int { p.count }
  function PaymentRevenue(p: ReportPayment): int { p.revenue }

  function PaymentRows(ms: seq<MethodRow>): (r: seq<ReportPayment>)
    ensures |r| == |ms|
    ensures forall i :: 0 <= i < |ms| ==> r[i] == PaymentRowOf(ms[i])
    ensures SumOf(r, PaymentCount) == SumOf(ms, MethodCount)
    ensures SumOf(r, PaymentRevenue) == SumOf(ms, MethodTotal)
  {
    if ms == [] then [] else [PaymentRowOf(ms[0])] + PaymentRows(ms[1..])
  }

  /** Some row carries the method's display name. */
  predicate PaymentListed(rows: seq<ReportPayment>, m: PaymentMethod) {
    exists i :: 0 <= i < |rows| && rows[i].methodName == PaymentLabel(m)
  }

  /**
   * `salesByPayment`: one row per method that occurs, in first-occurrence
   * order, named by its display label, with the method's count and revenue;
   * no two rows share a label, and the rows add up to the headline figures.
   */
  function SalesByPayment(filtered: seq<Sale>): (r: seq<ReportPayment>)
    ensures forall i, j :: 0 <= i < j < |r| ==> r[i].methodName != r[j].methodName
    ensures forall n :: 0 <= n < |filtered| ==> PaymentListed(r, filtered[n].paymentMethod)
    ensures forall i :: 0 <= i < |r| ==> IsMethodLabel(r[i].methodName)
    ensures SumOf(r, PaymentCount) == |filtered|
    ensures SumOf(r, PaymentRevenue) == Revenue(filtered)
    ensures forall i :: 0 <= i < |r| ==>
              exists n :: 0 <= n < |filtered| && r[i].methodName == PaymentLabel(filtered[n].paymentMethod)
    ensures forall i, n :: 0 <= i < |r| && 0 <= n < |filtered| && r[i].methodName == PaymentLabel(filtered[n].paymentMethod) ==>
              && r[i].count == Count(PaymentEntries(filtered), PaymentMethodKey(filtered[n].paymentMethod))
              && r[i].revenue == SumA(PaymentEntries(filtered), PaymentMethodKey(filtered[n].paymentMethod))
    ensures r == PaymentRows(SalesByPaymentMethod(filtered))
  {
    PaymentReportFacts(filtered);
    PaymentRows(SalesByPaymentMethod(filtered))
  }

  /** The facts of `SalesByPayment`, gathered over the rows of the method grouping. */
  lemma PaymentReportFacts(filtered: seq<Sale>)
    ensures var r := PaymentRows(SalesByPaymentMethod(filtered));
            && (forall i, j :: 0 <= i < j < |r| ==> r[i].methodName != r[j].methodName)
            && (forall n :: 0 <= n < |filtered| ==> PaymentListed(r, filtered[n].paymentMethod))
            && (forall i :: 0 <= i < |r| ==> IsMethodLabel(r[i].methodName))
            && SumOf(r, PaymentCount) == |filtered|
            && SumOf(r, PaymentRevenue) == Revenue(filtered)
            && (forall i :: 0 <= i < |r| ==>
                  exists n :: 0 <= n < |filtered| && r[i].methodName == PaymentLabel(filtered[n].paymentMethod))
            && (forall i, n :: 0 <= i < |r| && 0 <= n < |filtered| && r[i].methodName == PaymentLabel(filtered[n].paymentMethod) ==>
                  && r[i].count == Count(PaymentEntries(filtered), PaymentMethodKey(filtered[n].paymentMethod))
                  && r[i].revenue == SumA(PaymentEntries(filtered), PaymentMethodKey(filtered[n].paymentMethod)))
  {
    PaymentReportDistinct(filtered);
    PaymentReportLabelled(filtered);
    PaymentRowsListed(filtered, SalesByPaymentMethod(filtered));
    PaymentRowsFromSales(filtered);
  }

  /**
   * Every row of the payment table is the label of a method some sale used,
   * and carries the count and summed totals of the sales paid that way.
   */
  lemma PaymentRowsFromSales(filtered: seq<Sale>)
    ensures var r := PaymentRows(SalesByPaymentMethod(filtered));
            forall i :: 0 <= i < |r| ==>
              exists n :: 0 <= n < |filtered| && r[i].methodName == PaymentLabel(filtered[n].paymentMethod)
    ensures var r := PaymentRows(SalesByPaymentMethod(filtered));
            forall i, n :: 0 <= i < |r| && 0 <= n < |filtered| && r[i].methodName == PaymentLabel(filtered[n].paymentMethod) ==>
              && r[i].count == Count(PaymentEntries(filtered), PaymentMethodKey(filtered[n].paymentMethod))
              && r[i].revenue == SumA(PaymentEntries(filtered), PaymentMethodKey(filtered[n].paymentMethod))
  {
    var ms := SalesByPaymentMethod(filtered);
    var r := PaymentRows(ms);
    forall i | 0 <= i < |r|
      ensures exists n :: 0 <= n < |filtered| && r[i].methodName == PaymentLabel(filtered[n].paymentMethod)
      ensures forall n :: 0 <= n < |filtered| && r[i].methodName == PaymentLabel(filtered[n].paymentMethod) ==>
                && r[i].count == Count(PaymentEntries(filtered), PaymentMethodKey(filtered[n].paymentMethod))
                && r[i].revenue == SumA(PaymentEntries(filtered), PaymentMethodKey(filtered[n].paymentMethod))
    {
      PaymentRowFromSale(filtered, ms[i]);
    }
  }

  /** A row of the method grouping shows a method some sale used, with that method's figures. */
  lemma PaymentRowFromSale(filtered: seq<Sale>, m: MethodRow)
    requires var es := PaymentEntries(filtered);
             && Pos(es, m.methodKey) < |es|
             && m.count == Count(es, m.methodKey)
             && m.total == SumA(es, m.methodKey)
    ensures exists n :: 0 <= n < |filtered| && PaymentRowOf(m).methodName == PaymentLabel(filtered[n].paymentMethod)
    ensures forall n :: 0 <= n < |filtered| && PaymentRowOf(m).methodName == PaymentLabel(filtered[n].paymentMethod) ==>
              && PaymentRowOf(m).count == Count(PaymentEntries(filtered), PaymentMethodKey(filtered[n].paymentMethod))
              && PaymentRowOf(m).revenue == SumA(PaymentEntries(filtered), PaymentMethodKey(filtered[n].paymentMethod))
  {
    var es := PaymentEntries(filtered);
    var p := Pos(es, m.methodKey);
    var used := filtered[p].paymentMethod;
    assert es[p] == PaymentEntry(filtered[p]);
    assert m.methodKey == PaymentMethodKey(used);
    assert PaymentRowOf(m).methodName == PaymentLabel(used);
    forall n | 0 <= n < |filtered| && PaymentRowOf(m).methodName == PaymentLabel(filtered[n].paymentMethod)
      ensures PaymentMethodKey(filtered[n].paymentMethod) == m.methodKey
    {
      PaymentLabelsDistinct(filtered[n].paymentMethod, used);
    }
  }

  /** No two rows of the payment table share a name. */
  lemma PaymentReportDistinct(filtered: seq<Sale>)
    ensures forall i, j :: 0 <= i < j < |PaymentRows(SalesByPaymentMethod(filtered))| ==>
              PaymentRows(SalesByPaymentMethod(filtered))[i].methodName
              != PaymentRows(SalesByPaymentMethod(filtered))[j].methodName
  {
    var ms := SalesByPaymentMethod(filtered);
    RowKeysAreMethods(filtered, ms);
    PaymentRowsNamed(ms);
  }

  /** Every row of the payment table carries a method's label. */
  lemma PaymentReportLabelled(filtered: seq<Sale>)
    ensures forall i :: 0 <= i < |PaymentRows(SalesByPaymentMethod(filtered))| ==>
              IsMethodLabel(PaymentRows(SalesByPaymentMethod(filtered))[i].methodName)
  {
    var ms := SalesByPaymentMethod(filtered);
    RowKeysAreMethods(filtered, ms);
    PaymentRowsLabelled(ms);
  }

  /** Each row of the payment grouping is keyed by the method of one of the sales. */
  lemma RowKeysAreMethods(filtered: seq<Sale>, ms: seq<MethodRow>)
    requires ms == SalesByPaymentMethod(filtered)
    ensures forall i :: 0 <= i < |ms| ==> KeyMethod(ms[i].methodKey).Some?
  {
    var es := PaymentEntries(filtered);
    forall i | 0 <= i < |ms|
      ensures KeyMethod(ms[i].methodKey).Some?
    {
      var p := Pos(es, ms[i].methodKey);
      assert es[p] == PaymentEntry(filtered[p]);
      KeyMethodRoundTrip(filtered[p].paymentMethod);
    }
  }

  /** Rows keyed by known methods show those methods' labels. */
  lemma PaymentRowsLabelled(ms: seq<MethodRow>)
    requires forall i :: 0 <= i < |ms| ==> KeyMethod(ms[i].methodKey).Some?
    ensures forall i :: 0 <= i < |ms| ==> IsMethodLabel(PaymentRows(ms)[i].methodName)
  {
    forall i | 0 <= i < |ms|
      ensures IsMethodLabel(PaymentRows(ms)[i].methodName)
    {
      RowLabelled(ms, i);
    }
  }

  /** A row keyed by a known method shows that method's label. */
  lemma RowLabelled(ms: seq<MethodRow>, i: nat)
    requires i < |ms| && KeyMethod(ms[i].methodKey).Some?
    ensures IsMethodLabel(PaymentRows(ms)[i].methodName)
  {
    KnownKeyLabelled(ms[i].methodKey);
  }

  /** Distinct known method keys are shown under distinct names. */
  lemma PaymentRowsNamed(ms: seq<MethodRow>)
    requires forall i :: 0 <= i < |ms| ==> KeyMethod(ms[i].methodKey).Some?
    requires forall i, j :: 0 <= i < j < |ms| ==> ms[i].methodKey != ms[j].methodKey
    ensures forall i, j :: 0 <= i < j < |ms| ==> MethodNameOrKey(ms[i].methodKey) != MethodNameOrKey(ms[j].methodKey)
  {
    forall i, j | 0 <= i < j < |ms|
      ensures MethodNameOrKey(ms[i].methodKey) != MethodNameOrKey(ms[j].methodKey)
    {
      DistinctKeysDistinctNames(ms[i].methodKey, ms[j].methodKey);
    }
  }

  /** Every sale's method has the row carrying its label. */
  lemma PaymentRowsListed(filtered: seq<Sale>, ms: seq<MethodRow>)
    requires forall n :: 0 <= n < |filtered| ==> MethodListed(ms, filtered[n].paymentMethod)
    ensures forall n :: 0 <= n < |filtered| ==> PaymentListed(PaymentRows(ms), filtered[n].paymentMethod)
  {
    var r := PaymentRows(ms);
    forall n | 0 <= n < |filtered|
      ensures PaymentListed(r, filtered[n].paymentMethod)
    {
      var m := filtered[n].paymentMethod;
      var i :| 0 <= i < |ms| && ms[i].methodKey == PaymentMethodKey(m);
      assert r[i].methodName == PaymentLabel(m);
    }
  }

  // ---------------------------------------------------------------------------
  // The whole report

  datatype Report = Report(summary: Summary, byDay: seq<ReportDay>, topProducts: seq<ReportProduct>,
                           byPayment: seq<ReportPayment>)

  /** The page's figures for a period: every table adds up to the headline figures. */
  function BuildReport(kv: Kv, instant: string -> int, period: Period): (r: Report)
    ensures r.summary.totalSales == |ReportSales(kv, instant, period)|
    ensures SumOf(r.byDay, DayCount) == r.summary.totalSales
    ensures SumOf(r.byDay, DayRevenue) == r.summary.totalRevenue
    ensures SumOf(r.byDay, DayProfit) == r.summary.totalProfit
    ensures SumOf(r.byPayment, PaymentCount) == r.summary.totalSales
    ensures SumOf(r.byPayment, PaymentRevenue) == r.summary.totalRevenue
    ensures |r.topProducts| <= ReportTopCount
    ensures r.summary == Summarise(ReportSales(kv, instant, period), GetProducts(kv))
    ensures r.byDay == SalesByDay(ReportSales(kv, instant, period), GetProducts(kv))
    ensures r.topProducts == ReportTopProducts(ReportSales(kv, instant, period))
    ensures r.byPayment == SalesByPayment(ReportSales(kv, instant, period))
  {
    var filtered := ReportSales(kv, instant, period);
    var products := GetProducts(kv);
    var summary := Summarise(filtered, products);
    var days := SalesByDay(filtered, products);
    var payments := SalesByPayment(filtered);
    SalesProfitIsItemsProfit(filtered, products);
    assert SumOf(days, DayProfit) == summary.totalProfit;
    assert SumOf(payments, PaymentRevenue) == summary.totalRevenue;
    Report(summary, days, ReportTopProducts(filtered), payments)
  }
}
