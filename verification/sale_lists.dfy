/**
 * The two sale listings of the active store: the sales history with its
 * status filter (app/sales/page.tsx) and the receipt list with its search
 * box (app/receipts/page.tsx). Both show the store's sales newest first;
 * turning a creation stamp into an instant is the parameter `instant`.
 */
module SaleLists {
  import opened Wrappers
  import opened Types
  import opened Seqs
  import opened Storage
  import opened Grouping

  /** The creation instant of a sale, the sort key of both lists. */
  function CreatedAt(instant: string -> int): Sale -> int {
    (s: Sale) => instant(s.createdAt)
  }

  /**
   * `loadSales`: with an active store, its sales sorted by descending
   * creation instant; without one the list stays empty.
   */
  function StoreSalesNewestFirst(kv: Kv, activeStore: Option<Store>, instant: string -> int): (r: seq<Sale>)
    ensures activeStore.None? ==> r == []
    ensures activeStore.Some? ==> multiset(r) == multiset(GetSalesByStore(kv, activeStore.value.id))
    ensures activeStore.Some? ==> forall s :: s in r <==> s in GetSales(kv) && s.storeId == activeStore.value.id
    ensures forall i, j :: 0 <= i < j < |r| ==> instant(r[i].createdAt) >= instant(r[j].createdAt)
  {
    match activeStore
    case None => []
    case Some(st) =>
      var r := SortDesc(GetSalesByStore(kv, st.id), CreatedAt(instant));
      assert forall s :: s in r <==> s in multiset(GetSalesByStore(kv, st.id));
      r
  }

  // ---------------------------------------------------------------------------
  // Sales history

  /** The history's status filter: `"all" | "completed" | "cancelled"`. */
  datatype StatusFilter = All | OnlyCompleted | OnlyCancelled

  /** The status a filter other than `All` keeps. */
  function KeptStatus(f: StatusFilter): Option<SaleStatus> {
    match f
    case All => None
    case OnlyCompleted => Some(Completed)
    case OnlyCancelled => Some(Cancelled)
  }

  /** `filteredSales` of the history: everything for `All`, else the sales of exactly that status. */
  function ShownSales(sales: seq<Sale>, f: StatusFilter): (r: seq<Sale>)
    ensures f == All ==> r == sales
    ensures f == OnlyCompleted ==> forall s :: s in r <==> s in sales && s.status == Completed
    ensures f == OnlyCancelled ==> forall s :: s in r <==> s in sales && s.status == Cancelled
    ensures f == OnlyCompleted ==> forall s: Sale :: s.status == Completed ==> multiset(r)[s] == multiset(sales)[s]
    ensures f == OnlyCancelled ==> forall s: Sale :: s.status == Cancelled ==> multiset(r)[s] == multiset(sales)[s]
    ensures IsSubseq(r, sales)
  {
    match KeptStatus(f)
    case None => IsSubseqRefl(sales); sales
    case Some(st) =>
      FilterIsSubseq(sales, (s: Sale) => s.status == st);
      Filter(sales, (s: Sale) => s.status == st)
  }

  /** A sequence is a subsequence of itself. */
  lemma {:induction false} IsSubseqRefl<T>(xs: seq<T>)
    ensures IsSubseq(xs, xs)
    decreases |xs|
  {
    if xs != [] {
      IsSubseqRefl(xs[1..]);
    }
  }

  /** No pending sale survives a status filter, and the two filters together show at most all sales. */
  lemma FiltersSplitHistory(sales: seq<Sale>)
    ensures forall s :: s in ShownSales(sales, OnlyCompleted) ==> s.status != Pending
    ensures forall s :: s in ShownSales(sales, OnlyCancelled) ==> s.status != Pending
    ensures |ShownSales(sales, OnlyCompleted)| + |ShownSales(sales, OnlyCancelled)| <= |ShownSales(sales, All)|
  {
    FilterDisjoint(sales, (s: Sale) => s.status == Completed, (s: Sale) => s.status == Cancelled);
  }

  // ---------------------------------------------------------------------------
  // Receipt search

  /**
   * The receipt list's search condition: the term occurs, ignoring case, in
   * the receipt code or the customer name where the sale has them, or in the
   * seller name.
   */
  predicate ReceiptMatches(s: Sale, term: string) {
    || (s.receiptCode != "" && ContainsIgnoreCase(s.receiptCode, term))
    || (s.customerName.Some? && ContainsIgnoreCase(s.customerName.value, term))
    || ContainsIgnoreCase(s.sellerName, term)
  }

  /** `filteredSales` of the receipt list. */
  function SearchReceipts(sales: seq<Sale>, term: string): (r: seq<Sale>)
    ensures forall s :: s in r <==> s in sales && ReceiptMatches(s, term)
    ensures forall s: Sale :: ReceiptMatches(s, term) ==> multiset(r)[s] == multiset(sales)[s]
    ensures IsSubseq(r, sales)
  {
    FilterIsSubseq(sales, (s: Sale) => ReceiptMatches(s, term));
    Filter(sales, (s: Sale) => ReceiptMatches(s, term))
  }

  /** An empty search box lists every receipt, in order. */
  lemma EmptySearchListsAll(sales: seq<Sale>)
    ensures SearchReceipts(sales, "") == sales
  {
    forall i | 0 <= i < |sales|
      ensures ReceiptMatches(sales[i], "")
    {
      ContainsEmpty(Lower(sales[i].sellerName));
    }
    FilterAll(sales, (s: Sale) => ReceiptMatches(s, ""));
  }

  /** Searching for a sale's own receipt code, in any case, finds it. */
  lemma CodeFindsReceipt(sales: seq<Sale>, s: Sale, typed: string)
    requires s in sales && s.receiptCode != ""
    requires Lower(typed) == Lower(s.receiptCode)
    ensures s in SearchReceipts(sales, typed)
  {
    SelfContains(Lower(s.receiptCode));
  }

  /** Every string occurs in itself. */
  lemma SelfContains(x: string)
    ensures Contains(x, x)
  {
    if x != [] {
      assert x <= x;
    }
  }
}
