/**
 * The entities of the point-of-sale dashboard (lib/types.ts).
 *
 * Money and quantities are integers (the currency, XOF, has no fractional
 * digits); instants are integer milliseconds; ISO date strings that the
 * application only stores, copies or compares as text stay strings.
 */
module Types {
  import opened Wrappers

  /** The four roles; every user has exactly one. */
  datatype Role = SuperAdmin | StoreOwner | Manager | Seller

  datatype PaymentMethod = Cash | Credit | Debit | Pix

  datatype SaleStatus = Completed | Cancelled | Pending

  /** A tenant. `expiresAt` absent means the store never expires. */
  datatype Store = Store(
    id: string,
    name: string,
    email: string,
    phone: Option<string>,
    address: Option<string>,
    isActive: bool,
    expiresAt: Option<int>,
    createdAt: string,
    updatedAt: string)

  /** A login. `storeId` is meant to be absent only for super admins (see `WellBound`). */
  datatype User = User(
    id: string,
    email: string,
    password: string,
    name: string,
    role: Role,
    storeId: Option<string>,
    createdAt: string)

  /** A product owned by the store `storeId` ("" marks a legacy record without one). */
  datatype Product = Product(
    id: string,
    storeId: string,
    name: string,
    description: string,
    sku: string,
    price: int,
    cost: int,
    stock: int,
    category: string,
    active: bool,
    createdAt: string,
    updatedAt: string)

  /** A customer owned by the store `storeId`. */
  datatype Customer = Customer(
    id: string,
    storeId: string,
    name: string,
    email: Option<string>,
    phone: Option<string>,
    cpf: Option<string>,
    address: Option<string>,
    city: Option<string>,
    state: Option<string>,
    zipCode: Option<string>,
    notes: Option<string>,
    createdAt: string,
    updatedAt: string)

  /** One line of a sale: a snapshot of the product's name and price at sale time. */
  datatype SaleItem = SaleItem(
    productId: string,
    productName: string,
    quantity: int,
    unitPrice: int,
    discount: int,
    total: int)

  /** A sale owned by the store `storeId`; `receiptCode` "" marks a legacy record without one. */
  datatype Sale = Sale(
    id: string,
    storeId: string,
    receiptCode: string,
    customerId: Option<string>,
    customerName: Option<string>,
    items: seq<SaleItem>,
    subtotal: int,
    discount: int,
    total: int,
    paymentMethod: PaymentMethod,
    status: SaleStatus,
    sellerId: string,
    sellerName: string,
    notes: Option<string>,
    createdAt: string)

  /** The documented but unenforced rule: a user has a store exactly when it is not a super admin. */
  predicate WellBound(u: User) {
    (u.role == SuperAdmin) <==> u.storeId.None?
  }

  /** The wire names of the payment methods, as stored in a sale record. */
  function PaymentMethodKey(m: PaymentMethod): (r: string)
    ensures r in {"cash", "credit", "debit", "pix"}
  {
    match m
    case Cash => "cash"
    case Credit => "credit"
    case Debit => "debit"
    case Pix => "pix"
  }

  /** Distinct methods are stored under distinct names. */
  lemma PaymentMethodKeyInjective(a: PaymentMethod, b: PaymentMethod)
    ensures PaymentMethodKey(a) == PaymentMethodKey(b) ==> a == b
  {
  }
}
