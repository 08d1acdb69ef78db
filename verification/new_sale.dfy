/**
 * The point-of-sale page (app/sales/new/page.tsx): the cart state machine
 * over the active store's catalogue, its totals, and the submission that
 * records a completed sale and takes the sold quantities out of stock.
 *
 * The signed-in user and active store are the session `Context`; the sale
 * id, receipt code and current ISO stamp are parameters.
 */
module NewSale {
  import opened Wrappers
  import opened Types
  import opened Seqs
  import opened Storage
  import opened AccessControl

  /** The products the page sells from: the active store's active products. */
  function Catalogue(kv: Kv, storeId: string): (r: seq<Product>)
    ensures forall p :: p in r <==> p in GetProducts(kv) && p.storeId == storeId && p.active
    ensures forall p: Product :: p.storeId == storeId && p.active ==> multiset(r)[p] == multiset(GetProducts(kv))[p]
    ensures IsSubseq(r, GetProducts(kv))
  {
    var inStore := GetProductsByStore(kv, storeId);
    FilterIsSubseq(inStore, (p: Product) => p.active);
    IsSubseqTrans(Filter(inStore, (p: Product) => p.active), inStore, GetProducts(kv));
    Filter(inStore, (p: Product) => p.active)
  }

  /** `filteredProducts`: name or SKU contains the search text, ignoring case. */
  function SearchCatalogue(products: seq<Product>, query: string): (r: seq<Product>)
    ensures forall p :: p in r <==> p in products && (ContainsIgnoreCase(p.name, query) || ContainsIgnoreCase(p.sku, query))
    ensures forall p: Product :: ContainsIgnoreCase(p.name, query) || ContainsIgnoreCase(p.sku, query) ==>
              multiset(r)[p] == multiset(products)[p]
    ensures IsSubseq(r, products)
  {
    FilterIsSubseq(products, (p: Product) => ContainsIgnoreCase(p.name, query) || ContainsIgnoreCase(p.sku, query));
    Filter(products, (p: Product) => ContainsIgnoreCase(p.name, query) || ContainsIgnoreCase(p.sku, query))
  }

  // ---------------------------------------------------------------------------
  // The cart

  type Cart = seq<SaleItem>

  /** The product a cart line is for. */
  function LineProduct(it: SaleItem): string {
    it.productId
  }

  /** The position of the first line for `productId` (`cart.find`). */
  function LineOf(cart: Cart, productId: string): (r: Option<nat>)
    ensures r.Some? ==> r.value < |cart| && cart[r.value].productId == productId
    ensures r.Some? ==> forall j :: 0 <= j < r.value ==> cart[j].productId != productId
    ensures r.None? <==> forall j :: 0 <= j < |cart| ==> cart[j].productId != productId
  {
    FirstIndex(cart, (it: SaleItem) => it.productId == productId)
  }

  /** The first catalogue product with this id (`products.find`). */
  function CatalogueEntry(products: seq<Product>, productId: string): (r: Option<Product>)
    ensures r.Some? ==> r.value in products && r.value.id == productId
    ensures r.Some? ==> IsFirstMatch(products, (p: Product) => p.id == productId, r.value)
    ensures r.None? <==> forall j :: 0 <= j < |products| ==> products[j].id != productId
  {
    Find(products, (p: Product) => p.id == productId)
  }

  /** A fresh line for one unit of `p` at its current price. */
  function NewLine(p: Product): (it: SaleItem)
    ensures it.productId == p.id && it.productName == p.name
    ensures it.quantity == 1 && it.unitPrice == p.price && it.discount == 0 && it.total == p.price
  {
    SaleItem(p.id, p.name, 1, p.price, 0, p.price)
  }

  /** Every line for `productId` gets one more unit, its total recomputed without discount. */
  function Bump(cart: Cart, productId: string): (r: Cart)
    ensures |r| == |cart|
    ensures forall j :: 0 <= j < |cart| ==>
              r[j] == if cart[j].productId == productId
                      then cart[j].(quantity := cart[j].quantity + 1, total := (cart[j].quantity + 1) * cart[j].unitPrice)
                      else cart[j]
  {
    seq(|cart|, j requires 0 <= j < |cart| =>
      if cart[j].productId == productId
      then cart[j].(quantity := cart[j].quantity + 1, total := (cart[j].quantity + 1) * cart[j].unitPrice)
      else cart[j])
  }

  /**
   * `addToCart`: a product already in the cart gets one more unit unless
   * that would exceed its stock; a new product gets a line of one unit
   * unless it is out of stock. A refused addition leaves the cart as it was.
   */
  function AddToCart(cart: Cart, product: Product): (r: Cart)
    ensures LineOf(cart, product.id).None? && product.stock < 1 ==> r == cart
    ensures LineOf(cart, product.id).None? && product.stock >= 1 ==>
              |r| == |cart| + 1 && r[..|cart|] == cart && r[|cart|] == NewLine(product)
    ensures LineOf(cart, product.id).Some? && cart[LineOf(cart, product.id).value].quantity >= product.stock ==> r == cart
    ensures LineOf(cart, product.id).Some? && cart[LineOf(cart, product.id).value].quantity < product.stock ==>
              r == Bump(cart, product.id)
  {
    match LineOf(cart, product.id)
    case Some(i) => if cart[i].quantity >= product.stock then cart else Bump(cart, product.id)
    case None => if product.stock < 1 then cart else cart + [NewLine(product)]
  }

  /** `removeFromCart`: the lines for other products, in order. */
  function RemoveFromCart(cart: Cart, productId: string): (r: Cart)
    ensures forall it :: it in r <==> it in cart && it.productId != productId
    ensures IsSubseq(r, cart)
  {
    FilterIsSubseq(cart, (it: SaleItem) => it.productId != productId);
    Filter(cart, (it: SaleItem) => it.productId != productId)
  }

  /** Every line for `productId` takes the new quantity; its total keeps the line's discount. */
  function SetQuantity(cart: Cart, productId: string, quantity: int): (r: Cart)
    ensures |r| == |cart|
    ensures forall j :: 0 <= j < |cart| ==>
              r[j] == if cart[j].productId == productId
                      then cart[j].(quantity := quantity, total := quantity * cart[j].unitPrice - cart[j].discount)
                      else cart[j]
  {
    seq(|cart|, j requires 0 <= j < |cart| =>
      if cart[j].productId == productId
      then cart[j].(quantity := quantity, total := quantity * cart[j].unitPrice - cart[j].discount)
      else cart[j])
  }

  /**
   * `updateCartItemQuantity`: nothing for a product not in the catalogue;
   * a quantity above the stock is refused before anything else; zero or
   * less removes the product's lines; otherwise the lines take the quantity.
   */
  function UpdateQuantity(cart: Cart, products: seq<Product>, productId: string, quantity: int): (r: Cart)
    ensures CatalogueEntry(products, productId).None? ==> r == cart
    ensures CatalogueEntry(products, productId).Some? && quantity > CatalogueEntry(products, productId).value.stock ==> r == cart
    ensures CatalogueEntry(products, productId).Some? && quantity <= CatalogueEntry(products, productId).value.stock && quantity <= 0 ==>
              r == RemoveFromCart(cart, productId)
    ensures CatalogueEntry(products, productId).Some? && quantity <= CatalogueEntry(products, productId).value.stock && quantity > 0 ==>
              r == SetQuantity(cart, productId, quantity)
  {
    match CatalogueEntry(products, productId)
    case None => cart
    case Some(p) =>
      if quantity > p.stock then cart
      else if quantity <= 0 then RemoveFromCart(cart, productId)
      else SetQuantity(cart, productId, quantity)
  }

  /** The total of one line. */
  function LineTotal(it: SaleItem): int {
    it.total
  }

  /** `calculateSubtotal`: the sum of the line totals. */
  function Subtotal(cart: Cart): int {
    SumOf(cart, LineTotal)
  }

  /** `calculateTotal`: the subtotal less the sale-wide discount. */
  function Total(cart: Cart, globalDiscount: int): (r: int)
    ensures r + globalDiscount == SumOf(cart, LineTotal)
  {
    Subtotal(cart) - globalDiscount
  }

  // ---------------------------------------------------------------------------
  // The cart invariant

  /** A line as the page creates it: at least one unit, within some catalogue product's stock, undiscounted. */
  predicate LineOk(it: SaleItem, products: seq<Product>) {
    && 1 <= it.quantity
    && it.discount == 0
    && it.total == it.quantity * it.unitPrice
    && exists p :: p in products && p.id == it.productId && it.quantity <= p.stock
  }

  /** One line per product, and every line well-formed. */
  predicate CartOk(cart: Cart, products: seq<Product>) {
    DistinctBy(cart, LineProduct) && forall j :: 0 <= j < |cart| ==> LineOk(cart[j], products)
  }

  /** The empty cart the page starts with satisfies the invariant. */
  lemma EmptyCartOk(products: seq<Product>)
    ensures CartOk([], products)
  {
  }

  /** Adding a catalogue product keeps the invariant. */
  lemma AddKeepsCartOk(cart: Cart, products: seq<Product>, product: Product)
    requires CartOk(cart, products) && product in products
    ensures CartOk(AddToCart(cart, product), products)
  {
    var r := AddToCart(cart, product);
    match LineOf(cart, product.id)
    case None =>
      if product.stock >= 1 {
        forall i, j | 0 <= i < j < |r|
          ensures LineProduct(r[i]) != LineProduct(r[j])
        {
          if j == |cart| {
            assert r[i] == cart[i];
          } else {
            assert r[i] == cart[i] && r[j] == cart[j];
          }
        }
        forall j | 0 <= j < |r|
          ensures LineOk(r[j], products)
        {
          if j < |cart| {
            assert r[j] == cart[j];
          }
        }
      }
    case Some(i) =>
      if cart[i].quantity < product.stock {
        forall j | 0 <= j < |r|
          ensures LineOk(r[j], products)
        {
          if cart[j].productId == product.id {
            assert j == i;
          }
        }
      }
  }

  /** Removing a product's lines keeps the invariant. */
  lemma RemoveKeepsCartOk(cart: Cart, products: seq<Product>, productId: string)
    requires CartOk(cart, products)
    ensures CartOk(RemoveFromCart(cart, productId), products)
  {
    var r := RemoveFromCart(cart, productId);
    FilterKeepsDistinct(cart, (it: SaleItem) => it.productId != productId, LineProduct);
    forall j | 0 <= j < |r|
      ensures LineOk(r[j], products)
    {
      assert r[j] in cart;
    }
  }

  /** Changing a quantity through the page's handler keeps the invariant. */
  lemma UpdateKeepsCartOk(cart: Cart, products: seq<Product>, productId: string, quantity: int)
    requires CartOk(cart, products)
    ensures CartOk(UpdateQuantity(cart, products, productId, quantity), products)
  {
    match CatalogueEntry(products, productId)
    case None =>
    case Some(p) =>
      if quantity > p.stock {
      } else if quantity <= 0 {
        RemoveKeepsCartOk(cart, products, productId);
      } else {
        var r := SetQuantity(cart, productId, quantity);
        forall j | 0 <= j < |r|
          ensures LineOk(r[j], products)
        {
        }
      }
  }

  // ---------------------------------------------------------------------------
  // Cart totals

  /** Adding a unit of a product raises the subtotal by that unit's price when the addition is accepted. */
  lemma AddRaisesSubtotal(cart: Cart, products: seq<Product>, product: Product)
    requires CartOk(cart, products)
    ensures var r := AddToCart(cart, product);
            r == cart
            || (LineOf(cart, product.id).None? && Subtotal(r) == Subtotal(cart) + product.price)
            || (LineOf(cart, product.id).Some? && Subtotal(r) == Subtotal(cart) + cart[LineOf(cart, product.id).value].unitPrice)
  {
    var r := AddToCart(cart, product);
    match LineOf(cart, product.id)
    case None =>
      if product.stock >= 1 {
        assert r == cart + [NewLine(product)];
        SumOfSnoc(cart, NewLine(product), LineTotal);
      }
    case Some(i) =>
      if cart[i].quantity < product.stock {
        var it := cart[i];
        var bumped := it.(quantity := it.quantity + 1, total := (it.quantity + 1) * it.unitPrice);
        assert r == cart[i := bumped] by {
          forall j | 0 <= j < |cart|
            ensures r[j] == cart[i := bumped][j]
          {
            if cart[j].productId == product.id {
              DistinctKeysSameIndex(cart, LineProduct, i, j);
            }
          }
        }
        SumOfUpdate(cart, i, bumped, LineTotal);
      }
  }

  /** Adding a product new to the cart and then removing it gives back the cart. */
  lemma AddThenRemove(cart: Cart, product: Product)
    requires LineOf(cart, product.id).None?
    ensures RemoveFromCart(AddToCart(cart, product), product.id) == cart
  {
    var keep := (it: SaleItem) => it.productId != product.id;
    FilterAll(cart, keep);
    if product.stock >= 1 {
      FilterSnoc(cart, NewLine(product), keep);
    }
  }

  // ---------------------------------------------------------------------------
  // handleSubmit

  /** The checkout form: customer, payment method, notes and sale-wide discount. */
  datatype Checkout = Checkout(
    customer: Option<Customer>,
    paymentMethod: PaymentMethod,
    notes: string,
    globalDiscount: int)

  /** The store a sale belongs to. */
  function SaleStore(s: Sale): string {
    s.storeId
  }

  /** The sale record the page builds from the cart and the form. */
  function BuildSale(cart: Cart, co: Checkout, storeId: string, seller: User, saleId: string,
                     receiptCode: string, nowIso: string): (s: Sale)
    ensures s.id == saleId && s.storeId == storeId && s.receiptCode == receiptCode && s.createdAt == nowIso
    ensures s.items == cart && s.status == Completed && s.paymentMethod == co.paymentMethod
    ensures s.subtotal == Subtotal(cart) && s.discount == co.globalDiscount && s.total == s.subtotal - s.discount
    ensures s.sellerId == seller.id && s.sellerName == seller.name
    ensures s.customerId == (if co.customer.Some? then Some(co.customer.value.id) else None)
    ensures s.customerName == (if co.customer.Some? then Some(co.customer.value.name) else None)
    ensures s.notes == (if co.notes == "" then None else Some(co.notes))
  {
    Sale(saleId, storeId, receiptCode,
         if co.customer.Some? then Some(co.customer.value.id) else None,
         if co.customer.Some? then Some(co.customer.value.name) else None,
         cart, Subtotal(cart), co.globalDiscount, Total(cart, co.globalDiscount), co.paymentMethod,
         Completed, seller.id, seller.name, if co.notes == "" then None else Some(co.notes), nowIso)
  }

  /**
   * The stock update after a sale: a product of the selling store with a
   * cart line loses that line's quantity and is re-stamped; every other
   * product, including a same-id product of another store, is left alone.
   */
  function Destock(products: seq<Product>, cart: Cart, storeId: string, nowIso: string): (r: seq<Product>)
    ensures |r| == |products|
    ensures forall i :: 0 <= i < |products| ==>
              if LineOf(cart, products[i].id).Some? && products[i].storeId == storeId
              then r[i] == products[i].(stock := products[i].stock - cart[LineOf(cart, products[i].id).value].quantity,
                                        updatedAt := nowIso)
              else r[i] == products[i]
  {
    seq(|products|, i requires 0 <= i < |products| =>
      match LineOf(cart, products[i].id)
      case Some(j) =>
        if products[i].storeId == storeId
        then products[i].(stock := products[i].stock - cart[j].quantity, updatedAt := nowIso)
        else products[i]
      case None => products[i])
  }

  /** Writing an access-checked sale: nothing on rejection, else the sale appended and the stock taken. */
  function Persist(kv: Kv, checked: Checked<Sale>, cart: Cart, nowIso: string): (r: Kv)
    ensures checked.Rejected? ==> r == kv
    ensures checked.Accepted? ==>
              && GetSales(r) == GetSales(kv) + [checked.data]
              && GetProducts(r) == Destock(GetProducts(kv), cart, checked.data.storeId, nowIso)
              && SameOutside(r, kv, {SalesKey, ProductsKey})
  {
    match checked
    case Rejected(_) => kv
    case Accepted(sale) =>
      SetProducts(SetSales(kv, GetSales(kv) + [sale]), Destock(GetProducts(kv), cart, sale.storeId, nowIso))
  }

  /**
   * `handleSubmit`: nothing without a signed-in user and an active store or
   * with an empty cart; otherwise the sale is checked against the session
   * with `enforceStoreId` and, if accepted, persisted.
   */
  function Submit(kv: Kv, ctx: Context, cart: Cart, co: Checkout, saleId: string, receiptCode: string,
                  nowIso: string): (r: Kv)
    ensures ctx.user.None? || ctx.activeStore.None? || cart == [] ==> r == kv
    ensures ctx.user.Some? && ctx.activeStore.Some? && cart != [] ==>
              var sale := BuildSale(cart, co, ctx.activeStore.value.id, ctx.user.value, saleId, receiptCode, nowIso);
              r == Persist(kv, EnforceStoreId(sale, SaleStore, ctx), cart, nowIso)
  {
    if ctx.user.None? || ctx.activeStore.None? || cart == [] then kv
    else
      var sale := BuildSale(cart, co, ctx.activeStore.value.id, ctx.user.value, saleId, receiptCode, nowIso);
      Persist(kv, EnforceStoreId(sale, SaleStore, ctx), cart, nowIso)
  }

  /**
   * A submission with a user, a store and a non-empty cart always passes the
   * access check and records exactly one completed sale of the active store.
   */
  lemma SubmitRecordsSale(kv: Kv, u: User, s: Store, cart: Cart, co: Checkout, saleId: string,
                          receiptCode: string, nowIso: string)
    requires cart != []
    ensures var r := Submit(kv, Context(Some(u), Some(s)), cart, co, saleId, receiptCode, nowIso);
            && |GetSales(r)| == |GetSales(kv)| + 1
            && GetSales(r)[..|GetSales(kv)|] == GetSales(kv)
            && GetSales(r)[|GetSales(kv)|] == BuildSale(cart, co, s.id, u, saleId, receiptCode, nowIso)
            && GetSales(r)[|GetSales(kv)|].storeId == s.id
            && GetSales(r)[|GetSales(kv)|].status == Completed
            && GetProducts(r) == Destock(GetProducts(kv), cart, s.id, nowIso)
  {
    var sale := BuildSale(cart, co, s.id, u, saleId, receiptCode, nowIso);
    EnforceAcceptsActiveStore(sale, SaleStore, u, s);
  }

  /**
   * Stock cannot go negative through a sale when the cart was built against
   * the catalogue the page shows and every product of the store being sold
   * is in that catalogue with a unique id there.
   */
  lemma DestockStaysNonNegative(products: seq<Product>, catalogue: seq<Product>, cart: Cart, storeId: string, nowIso: string)
    requires CartOk(cart, catalogue)
    requires DistinctBy(catalogue, (p: Product) => p.id)
    requires forall i :: 0 <= i < |products| && products[i].storeId == storeId && LineOf(cart, products[i].id).Some? ==>
               products[i] in catalogue
    ensures var r := Destock(products, cart, storeId, nowIso);
            forall i :: 0 <= i < |products| && products[i].storeId == storeId && LineOf(cart, products[i].id).Some? ==>
              r[i].stock >= 0
  {
    forall i | 0 <= i < |products| && products[i].storeId == storeId && LineOf(cart, products[i].id).Some?
      ensures products[i].stock - cart[LineOf(cart, products[i].id).value].quantity >= 0
    {
      var it := cart[LineOf(cart, products[i].id).value];
      assert LineOk(it, catalogue);
      var q :| q in catalogue && q.id == it.productId && it.quantity <= q.stock;
      var a :| 0 <= a < |catalogue| && catalogue[a] == q;
      var b :| 0 <= b < |catalogue| && catalogue[b] == products[i];
      DistinctKeysSameIndex(catalogue, (p: Product) => p.id, a, b);
    }
  }
}
