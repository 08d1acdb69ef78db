/**
 * The customer list page (app/customers/page.tsx): the search box, and
 * saving and deleting customers behind the tenant guards.
 *
 * As on the product page, saving an edit and deleting act on every stored
 * customer with the chosen id, in any store. Generated ids and the current
 * ISO stamp are parameters.
 */
module CustomersPage {
  import opened Wrappers
  import opened Types
  import opened Seqs
  import opened Storage
  import opened AccessControl

  /** The customer form's fields; an empty optional field arrives absent. */
  datatype CustomerData = CustomerData(
    name: string,
    email: Option<string>,
    phone: Option<string>,
    cpf: Option<string>,
    address: Option<string>,
    city: Option<string>,
    state: Option<string>,
    zipCode: Option<string>,
    notes: Option<string>)

  /** The form fields with the owning store the page forces onto them. */
  datatype CustomerDraft = CustomerDraft(data: CustomerData, storeId: string)

  /** The store a draft is for. */
  function DraftStore(d: CustomerDraft): string {
    d.storeId
  }

  /** The form fields of a customer. */
  function FieldsOf(c: Customer): CustomerData {
    CustomerData(c.name, c.email, c.phone, c.cpf, c.address, c.city, c.state, c.zipCode, c.notes)
  }

  // ---------------------------------------------------------------------------
  // Search

  /** `field?.toLowerCase().includes(term)`: an absent field never matches. */
  predicate OptionalContains(field: Option<string>, term: string) {
    field.Some? && ContainsIgnoreCase(field.value, term)
  }

  /** Name, e-mail, phone or CPF contains the search text, ignoring case. */
  predicate MatchesSearch(c: Customer, term: string) {
    || ContainsIgnoreCase(c.name, term)
    || OptionalContains(c.email, term)
    || OptionalContains(c.phone, term)
    || OptionalContains(c.cpf, term)
  }

  /** `filteredCustomers`. */
  function FilterCustomers(customers: seq<Customer>, term: string): (r: seq<Customer>)
    ensures forall c :: c in r <==> c in customers && MatchesSearch(c, term)
    ensures forall c: Customer :: MatchesSearch(c, term) ==> multiset(r)[c] == multiset(customers)[c]
    ensures IsSubseq(r, customers)
  {
    FilterIsSubseq(customers, (c: Customer) => MatchesSearch(c, term));
    Filter(customers, (c: Customer) => MatchesSearch(c, term))
  }

  /** No search text lists every customer, since every customer has a name. */
  lemma EmptySearchListsAll(customers: seq<Customer>)
    ensures FilterCustomers(customers, "") == customers
  {
    forall i | 0 <= i < |customers|
      ensures MatchesSearch(customers[i], "")
    {
      ContainsEmpty(Lower(customers[i].name));
    }
    FilterAll(customers, (c: Customer) => MatchesSearch(c, ""));
  }

  /** A customer whose name, e-mail, phone and CPF do not contain the text is never listed. */
  lemma AbsentFieldsNeverMatch(c: Customer, term: string)
    requires !ContainsIgnoreCase(c.name, term)
    requires c.email.None? && c.phone.None? && c.cpf.None?
    ensures forall cs :: c !in FilterCustomers(cs, term)
  {
  }

  // ---------------------------------------------------------------------------
  // handleSaveCustomer

  /** A created customer: the form's fields in the draft's store, both stamps now. */
  function NewCustomer(d: CustomerDraft, id: string, nowIso: string): (c: Customer)
    ensures FieldsOf(c) == d.data && c.storeId == d.storeId && c.id == id
    ensures c.createdAt == nowIso && c.updatedAt == nowIso
  {
    Customer(id, d.storeId, d.data.name, d.data.email, d.data.phone, d.data.cpf, d.data.address,
             d.data.city, d.data.state, d.data.zipCode, d.data.notes, nowIso, nowIso)
  }

  /** An edited customer: the form's fields and the draft's store over the stored record. */
  function EditedCustomer(c: Customer, d: CustomerDraft, nowIso: string): (e: Customer)
    ensures FieldsOf(e) == d.data && e.storeId == d.storeId && e.updatedAt == nowIso
    ensures e.id == c.id && e.createdAt == c.createdAt
  {
    c.(name := d.data.name, email := d.data.email, phone := d.data.phone, cpf := d.data.cpf,
       address := d.data.address, city := d.data.city, state := d.data.state, zipCode := d.data.zipCode,
       notes := d.data.notes, storeId := d.storeId, updatedAt := nowIso)
  }

  /** Every customer with the id rewritten from the draft; the others as they were. */
  function Overwrite(customers: seq<Customer>, id: string, d: CustomerDraft, nowIso: string): (r: seq<Customer>)
    ensures |r| == |customers|
    ensures forall i :: 0 <= i < |customers| ==>
              r[i] == if customers[i].id == id then EditedCustomer(customers[i], d, nowIso) else customers[i]
  {
    seq(|customers|, i requires 0 <= i < |customers| =>
      if customers[i].id == id then EditedCustomer(customers[i], d, nowIso) else customers[i])
  }

  /** The save once the draft went through `enforceStoreId`. */
  function ApplySave(kv: Kv, ctx: Context, checked: Checked<CustomerDraft>, editing: Option<Customer>,
                     newId: string, nowIso: string): (r: Kv)
    ensures SameOutside(r, kv, {CustomersKey})
  {
    match checked
    case Rejected(_) => kv
    case Accepted(d) =>
      match editing
      case Some(e) =>
        if ValidateStoreAccess(e.storeId, ctx).Denied? then kv
        else SetCustomers(kv, Overwrite(GetCustomers(kv), e.id, d, nowIso))
      case None => SetCustomers(kv, GetCustomers(kv) + [NewCustomer(d, newId, nowIso)])
  }

  /**
   * `handleSaveCustomer`: nothing without a user and an active store. The
   * draft is forced into the active store, so `enforceStoreId` accepts it.
   * A new customer is appended; an edit, once `validateStoreAccess` grants
   * the edited customer's store, rewrites every stored customer with its id.
   */
  function SaveCustomer(kv: Kv, ctx: Context, editing: Option<Customer>, data: CustomerData,
                        newId: string, nowIso: string): (r: Kv)
    ensures ctx.user.None? || ctx.activeStore.None? ==> r == kv
    ensures ctx.user.Some? && ctx.activeStore.Some? && editing.None? ==>
              var sid := ctx.activeStore.value.id;
              && |GetCustomers(r)| == |GetCustomers(kv)| + 1
              && GetCustomers(r)[..|GetCustomers(kv)|] == GetCustomers(kv)
              && var c := GetCustomers(r)[|GetCustomers(kv)|];
                 FieldsOf(c) == data && c.storeId == sid && c.id == newId && c.createdAt == nowIso && c.updatedAt == nowIso
    ensures ctx.user.Some? && ctx.activeStore.Some? && editing.Some? && ValidateStoreAccess(editing.value.storeId, ctx).Denied? ==>
              r == kv
    ensures ctx.user.Some? && ctx.activeStore.Some? && editing.Some? && ValidateStoreAccess(editing.value.storeId, ctx).Granted? ==>
              var sid := ctx.activeStore.value.id;
              && |GetCustomers(r)| == |GetCustomers(kv)|
              && forall i :: 0 <= i < |GetCustomers(kv)| ==>
                   var c, e := GetCustomers(kv)[i], GetCustomers(r)[i];
                   if c.id == editing.value.id
                   then FieldsOf(e) == data && e.storeId == sid && e.id == c.id && e.createdAt == c.createdAt && e.updatedAt == nowIso
                   else e == c
    ensures SameOutside(r, kv, {CustomersKey})
  {
    if ctx.user.None? || ctx.activeStore.None? then kv
    else
      var d := CustomerDraft(data, ctx.activeStore.value.id);
      EnforceAcceptsActiveStore(d, DraftStore, ctx.user.value, ctx.activeStore.value);
      ApplySave(kv, ctx, EnforceStoreId(d, DraftStore, ctx), editing, newId, nowIso)
  }

  /** A user of another store cannot edit a store's customer: the save changes nothing. */
  lemma ForeignEditRefused(kv: Kv, u: User, s: Store, e: Customer, data: CustomerData, nowIso: string)
    requires u.role != SuperAdmin && e.storeId != s.id
    ensures SaveCustomer(kv, Context(Some(u), Some(s)), Some(e), data, "", nowIso) == kv
  {
    ValidateForTenant(e.storeId, u, s);
  }

  // ---------------------------------------------------------------------------
  // handleDeleteCustomer

  /** The customers whose id is not `id`, in order. */
  function WithoutId(customers: seq<Customer>, id: string): (r: seq<Customer>)
    ensures forall c :: c in r <==> c in customers && c.id != id
    ensures forall c: Customer :: c.id != id ==> multiset(r)[c] == multiset(customers)[c]
    ensures IsSubseq(r, customers)
  {
    FilterIsSubseq(customers, (c: Customer) => c.id != id);
    Filter(customers, (c: Customer) => c.id != id)
  }

  /** Dropping the id of a customer appended under a fresh id gives back the list. */
  lemma WithoutFreshId(customers: seq<Customer>, c: Customer)
    requires forall x :: x in customers ==> x.id != c.id
    ensures WithoutId(customers + [c], c.id) == customers
  {
    FilterSnoc(customers, c, (x: Customer) => x.id != c.id);
    FilterAll(customers, (x: Customer) => x.id != c.id);
  }

  /**
   * `handleDeleteCustomer`: nothing without a chosen customer, a store and
   * a user, or when `validateStoreAccess` refuses the customer's store;
   * otherwise every stored customer with its id goes, in any store.
   */
  function DeleteCustomer(kv: Kv, ctx: Context, deleting: Option<Customer>): (r: Kv)
    ensures deleting.None? || ctx.activeStore.None? || ctx.user.None? ==> r == kv
    ensures deleting.Some? && ValidateStoreAccess(deleting.value.storeId, ctx).Denied? ==> r == kv
    ensures deleting.Some? && ctx.activeStore.Some? && ctx.user.Some? && ValidateStoreAccess(deleting.value.storeId, ctx).Granted? ==>
              GetCustomers(r) == WithoutId(GetCustomers(kv), deleting.value.id)
    ensures SameOutside(r, kv, {CustomersKey})
  {
    if deleting.None? || ctx.activeStore.None? || ctx.user.None? then kv
    else if ValidateStoreAccess(deleting.value.storeId, ctx).Denied? then kv
    else SetCustomers(kv, WithoutId(GetCustomers(kv), deleting.value.id))
  }

  /** A customer saved as new, as it is appended to the stored list. */
  lemma CreateAppends(kv: Kv, u: User, s: Store, data: CustomerData, newId: string, nowIso: string)
    ensures GetCustomers(SaveCustomer(kv, Context(Some(u), Some(s)), None, data, newId, nowIso))
            == GetCustomers(kv) + [NewCustomer(CustomerDraft(data, s.id), newId, nowIso)]
  {
    var cs := GetCustomers(kv);
    var created := SaveCustomer(kv, Context(Some(u), Some(s)), None, data, newId, nowIso);
    assert GetCustomers(created)[..|cs|] == cs;
  }

  /** Deleting a customer just created under a fresh id gives back the customer list. */
  lemma DeleteUndoesCreate(kv: Kv, u: User, s: Store, data: CustomerData, newId: string, nowIso: string)
    requires forall c :: c in GetCustomers(kv) ==> c.id != newId
    ensures var ctx := Context(Some(u), Some(s));
            var created := SaveCustomer(kv, ctx, None, data, newId, nowIso);
            var c := NewCustomer(CustomerDraft(data, s.id), newId, nowIso);
            GetCustomers(DeleteCustomer(created, ctx, Some(c))) == GetCustomers(kv)
  {
    var ctx := Context(Some(u), Some(s));
    var c := NewCustomer(CustomerDraft(data, s.id), newId, nowIso);
    CreateAppends(kv, u, s, data, newId, nowIso);
    EnforceAcceptsActiveStore(c, (x: Customer) => x.storeId, u, s);
    EnforceAgreesWithValidate(c, (x: Customer) => x.storeId, ctx);
    WithoutFreshId(GetCustomers(kv), c);
  }
}
