/**
 * The product catalogue page (app/products/page.tsx): the category list,
 * the search and category filter, and saving and deleting products behind
 * the tenant guards.
 *
 * The page lists the active store's products, but saving an edit and
 * deleting both act on every stored product with the chosen id, in any
 * store. Generated ids and the current ISO stamp are parameters.
 */
module ProductsPage {
  import opened Wrappers
  import opened Types
  import opened Seqs
  import opened Storage
  import opened AccessControl

  /** The product form's fields. */
  datatype ProductData = ProductData(
    name: string,
    description: string,
    sku: string,
    price: int,
    cost: int,
    stock: int,
    category: string,
    active: bool)

  /** The form fields with the owning store the page forces onto them. */
  datatype ProductDraft = ProductDraft(data: ProductData, storeId: string)

  /** The store a draft is for. */
  function DraftStore(d: ProductDraft): string {
    d.storeId
  }

  /** The form fields of a product. */
  function FieldsOf(p: Product): ProductData {
    ProductData(p.name, p.description, p.sku, p.price, p.cost, p.stock, p.category, p.active)
  }

  // ---------------------------------------------------------------------------
  // Categories and filtering

  /** The categories of the products, in list order. */
  function CategoryColumn(products: seq<Product>): (r: seq<string>)
    ensures |r| == |products| && forall i :: 0 <= i < |products| ==> r[i] == products[i].category
  {
    seq(|products|, i requires 0 <= i < |products| => products[i].category)
  }

  /** `categories`: "all", then each category once, in order of first appearance. */
  function Categories(products: seq<Product>): (r: seq<string>)
    ensures |r| >= 1 && r[0] == "all"
    ensures forall c :: c in r[1..] <==> exists p :: p in products && p.category == c
    ensures forall i, j :: 1 <= i < j < |r| ==> r[i] != r[j]
    ensures forall i, j :: 1 <= i < j < |r| ==>
              FirstPos(CategoryColumn(products), r[i]) < FirstPos(CategoryColumn(products), r[j])
  {
    var col := CategoryColumn(products);
    DedupOrder(col);
    var r := ["all"] + Dedup(col);
    assert r[1..] == Dedup(col);
    assert forall c :: c in col <==> exists p :: p in products && p.category == c by {
      forall c | c in col
        ensures exists p :: p in products && p.category == c
      {
        var i :| 0 <= i < |col| && col[i] == c;
        assert products[i] in products;
      }
      forall p | p in products
        ensures p.category in col
      {
        var i :| 0 <= i < |products| && products[i] == p;
        assert col[i] == p.category;
      }
    }
    r
  }

  /** Name, SKU or description contains the search text, ignoring case. */
  predicate MatchesSearch(p: Product, term: string) {
    ContainsIgnoreCase(p.name, term) || ContainsIgnoreCase(p.sku, term) || ContainsIgnoreCase(p.description, term)
  }

  /** The chosen category is "all" or the product's. */
  predicate MatchesCategory(p: Product, category: string) {
    category == "all" || p.category == category
  }

  /** `filteredProducts`: the products matching both the search text and the category. */
  function FilterProducts(products: seq<Product>, term: string, category: string): (r: seq<Product>)
    ensures forall p :: p in r <==> p in products && MatchesSearch(p, term) && MatchesCategory(p, category)
    ensures forall p: Product :: MatchesSearch(p, term) && MatchesCategory(p, category) ==> multiset(r)[p] == multiset(products)[p]
    ensures IsSubseq(r, products)
  {
    FilterIsSubseq(products, (p: Product) => MatchesSearch(p, term) && MatchesCategory(p, category));
    Filter(products, (p: Product) => MatchesSearch(p, term) && MatchesCategory(p, category))
  }

  /** No search text and category "all" lists every product. */
  lemma UnfilteredListsAll(products: seq<Product>)
    ensures FilterProducts(products, "", "all") == products
  {
    forall i | 0 <= i < |products|
      ensures MatchesSearch(products[i], "")
    {
      ContainsEmpty(Lower(products[i].name));
    }
    FilterAll(products, (p: Product) => MatchesSearch(p, "") && MatchesCategory(p, "all"));
  }

  // ---------------------------------------------------------------------------
  // handleSaveProduct

  /** A created product: the form's fields in the draft's store, both stamps now. */
  function NewProduct(d: ProductDraft, id: string, nowIso: string): (p: Product)
    ensures FieldsOf(p) == d.data && p.storeId == d.storeId && p.id == id
    ensures p.createdAt == nowIso && p.updatedAt == nowIso
  {
    Product(id, d.storeId, d.data.name, d.data.description, d.data.sku, d.data.price, d.data.cost,
            d.data.stock, d.data.category, d.data.active, nowIso, nowIso)
  }

  /** An edited product: the form's fields and the draft's store over the stored record. */
  function EditedProduct(p: Product, d: ProductDraft, nowIso: string): (q: Product)
    ensures FieldsOf(q) == d.data && q.storeId == d.storeId && q.updatedAt == nowIso
    ensures q.id == p.id && q.createdAt == p.createdAt
  {
    p.(name := d.data.name, description := d.data.description, sku := d.data.sku, price := d.data.price,
       cost := d.data.cost, stock := d.data.stock, category := d.data.category, active := d.data.active,
       storeId := d.storeId, updatedAt := nowIso)
  }

  /** Every product with the id rewritten from the draft; the others as they were. */
  function Overwrite(products: seq<Product>, id: string, d: ProductDraft, nowIso: string): (r: seq<Product>)
    ensures |r| == |products|
    ensures forall i :: 0 <= i < |products| ==>
              r[i] == if products[i].id == id then EditedProduct(products[i], d, nowIso) else products[i]
  {
    seq(|products|, i requires 0 <= i < |products| =>
      if products[i].id == id then EditedProduct(products[i], d, nowIso) else products[i])
  }

  /** The save once the draft went through `enforceStoreId`. */
  function ApplySave(kv: Kv, ctx: Context, checked: Checked<ProductDraft>, editing: Option<Product>,
                     newId: string, nowIso: string): (r: Kv)
    ensures SameOutside(r, kv, {ProductsKey})
  {
    match checked
    case Rejected(_) => kv
    case Accepted(d) =>
      match editing
      case Some(e) =>
        if ValidateStoreAccess(e.storeId, ctx).Denied? then kv
        else SetProducts(kv, Overwrite(GetProducts(kv), e.id, d, nowIso))
      case None => SetProducts(kv, GetProducts(kv) + [NewProduct(d, newId, nowIso)])
  }

  /**
   * `handleSaveProduct`: nothing without a user and an active store. The
   * draft is forced into the active store, so `enforceStoreId` accepts it.
   * A new product is appended; an edit, once `validateStoreAccess` grants
   * the edited product's store, rewrites every stored product with its id.
   */
  function SaveProduct(kv: Kv, ctx: Context, editing: Option<Product>, data: ProductData,
                       newId: string, nowIso: string): (r: Kv)
    ensures ctx.user.None? || ctx.activeStore.None? ==> r == kv
    ensures ctx.user.Some? && ctx.activeStore.Some? && editing.None? ==>
              var sid := ctx.activeStore.value.id;
              && |GetProducts(r)| == |GetProducts(kv)| + 1
              && GetProducts(r)[..|GetProducts(kv)|] == GetProducts(kv)
              && var p := GetProducts(r)[|GetProducts(kv)|];
                 FieldsOf(p) == data && p.storeId == sid && p.id == newId && p.createdAt == nowIso && p.updatedAt == nowIso
    ensures ctx.user.Some? && ctx.activeStore.Some? && editing.Some? && ValidateStoreAccess(editing.value.storeId, ctx).Denied? ==>
              r == kv
    ensures ctx.user.Some? && ctx.activeStore.Some? && editing.Some? && ValidateStoreAccess(editing.value.storeId, ctx).Granted? ==>
              var sid := ctx.activeStore.value.id;
              && |GetProducts(r)| == |GetProducts(kv)|
              && forall i :: 0 <= i < |GetProducts(kv)| ==>
                   var p, q := GetProducts(kv)[i], GetProducts(r)[i];
                   if p.id == editing.value.id
                   then FieldsOf(q) == data && q.storeId == sid && q.id == p.id && q.createdAt == p.createdAt && q.updatedAt == nowIso
                   else q == p
    ensures SameOutside(r, kv, {ProductsKey})
  {
    if ctx.user.None? || ctx.activeStore.None? then kv
    else
      var d := ProductDraft(data, ctx.activeStore.value.id);
      EnforceAcceptsActiveStore(d, DraftStore, ctx.user.value, ctx.activeStore.value);
      ApplySave(kv, ctx, EnforceStoreId(d, DraftStore, ctx), editing, newId, nowIso)
  }

  /**
   * The edit is not confined to the active store: a store owner editing
   * one of its own products also rewrites, and moves into its own store,
   * a product of another store that happens to share the id.
   */
  lemma EditCrossesTenants(kv: Kv, u: User, s: Store, e: Product, data: ProductData, nowIso: string, i: nat)
    requires u.role == StoreOwner && e.storeId == s.id
    requires i < |GetProducts(kv)| && GetProducts(kv)[i].id == e.id && GetProducts(kv)[i].storeId != s.id
    ensures var r := SaveProduct(kv, Context(Some(u), Some(s)), Some(e), data, "", nowIso);
            GetProducts(r)[i].storeId == s.id && GetProducts(r)[i] != GetProducts(kv)[i]
  {
    ValidateForTenant(e.storeId, u, s);
  }

  // ---------------------------------------------------------------------------
  // handleDeleteProduct

  /** The products whose id is not `id`, in order. */
  function WithoutId(products: seq<Product>, id: string): (r: seq<Product>)
    ensures forall p :: p in r <==> p in products && p.id != id
    ensures forall p: Product :: p.id != id ==> multiset(r)[p] == multiset(products)[p]
    ensures IsSubseq(r, products)
  {
    FilterIsSubseq(products, (p: Product) => p.id != id);
    Filter(products, (p: Product) => p.id != id)
  }

  /** Dropping the id of a product appended under a fresh id gives back the list. */
  lemma WithoutFreshId(products: seq<Product>, p: Product)
    requires forall q :: q in products ==> q.id != p.id
    ensures WithoutId(products + [p], p.id) == products
  {
    FilterSnoc(products, p, (q: Product) => q.id != p.id);
    FilterAll(products, (q: Product) => q.id != p.id);
  }

  /**
   * `handleDeleteProduct`: nothing without a chosen product, a store and a
   * user, or when `validateStoreAccess` refuses the product's store;
   * otherwise every stored product with its id goes, in any store.
   */
  function DeleteProduct(kv: Kv, ctx: Context, deleting: Option<Product>): (r: Kv)
    ensures deleting.None? || ctx.activeStore.None? || ctx.user.None? ==> r == kv
    ensures deleting.Some? && ValidateStoreAccess(deleting.value.storeId, ctx).Denied? ==> r == kv
    ensures deleting.Some? && ctx.activeStore.Some? && ctx.user.Some? && ValidateStoreAccess(deleting.value.storeId, ctx).Granted? ==>
              GetProducts(r) == WithoutId(GetProducts(kv), deleting.value.id)
    ensures SameOutside(r, kv, {ProductsKey})
  {
    if deleting.None? || ctx.activeStore.None? || ctx.user.None? then kv
    else if ValidateStoreAccess(deleting.value.storeId, ctx).Denied? then kv
    else SetProducts(kv, WithoutId(GetProducts(kv), deleting.value.id))
  }

  /** A product saved as new, as it is appended to the stored list. */
  lemma CreateAppends(kv: Kv, u: User, s: Store, data: ProductData, newId: string, nowIso: string)
    ensures GetProducts(SaveProduct(kv, Context(Some(u), Some(s)), None, data, newId, nowIso))
            == GetProducts(kv) + [NewProduct(ProductDraft(data, s.id), newId, nowIso)]
  {
    var ps := GetProducts(kv);
    var created := SaveProduct(kv, Context(Some(u), Some(s)), None, data, newId, nowIso);
    assert GetProducts(created)[..|ps|] == ps;
  }

  /** Deleting a product just created under a fresh id gives back the product list. */
  lemma DeleteUndoesCreate(kv: Kv, u: User, s: Store, data: ProductData, newId: string, nowIso: string)
    requires forall p :: p in GetProducts(kv) ==> p.id != newId
    ensures var ctx := Context(Some(u), Some(s));
            var created := SaveProduct(kv, ctx, None, data, newId, nowIso);
            var p := NewProduct(ProductDraft(data, s.id), newId, nowIso);
            GetProducts(DeleteProduct(created, ctx, Some(p))) == GetProducts(kv)
  {
    var ctx := Context(Some(u), Some(s));
    var p := NewProduct(ProductDraft(data, s.id), newId, nowIso);
    CreateAppends(kv, u, s, data, newId, nowIso);
    EnforceAcceptsActiveStore(p, (q: Product) => q.storeId, u, s);
    EnforceAgreesWithValidate(p, (q: Product) => q.storeId, ctx);
    WithoutFreshId(GetProducts(kv), p);
  }
}
