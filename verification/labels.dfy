/**
 * The Portuguese display names the sale pages show for statuses and
 * payment methods (app/sales/page.tsx, app/receipts/page.tsx,
 * app/reports/page.tsx).
 */
module Labels {
  import opened Wrappers
  import opened Types

  /** `getStatusLabel`. */
  function StatusLabel(st: SaleStatus): (r: string)
    ensures r != ""
  {
    match st
    case Completed => "Concluída"
    case Cancelled => "Cancelada"
    case Pending => "Pendente"
  }

  /** `getPaymentMethodLabel`. */
  function PaymentLabel(m: PaymentMethod): (r: string)
    ensures r != ""
  {
    match m
    case Cash => "Dinheiro"
    case Credit => "Crédito"
    case Debit => "Débito"
    case Pix => "PIX"
  }

  /** `name` is the label of some payment method. */
  ghost predicate IsMethodLabel(name: string) {
    exists m :: PaymentLabel(m) == name
  }

  /** Every method's label is a method label. */
  lemma LabelIsMethodLabel(m: PaymentMethod)
    ensures IsMethodLabel(PaymentLabel(m))
  {
  }

  /** The badge style the receipt list gives a status. */
  datatype BadgeVariant = Default | Destructive | Secondary

  /** `variants[status]` of `getStatusBadge`. */
  function StatusVariant(st: SaleStatus): BadgeVariant {
    match st
    case Completed => Default
    case Cancelled => Destructive
    case Pending => Secondary
  }

  /** The method stored under `key`, if any. */
  function KeyMethod(key: string): (r: Option<PaymentMethod>)
    ensures r.Some? ==> PaymentMethodKey(r.value) == key
    ensures r.None? ==> forall m :: PaymentMethodKey(m) != key
  {
    if key == "cash" then Some(Cash)
    else if key == "credit" then Some(Credit)
    else if key == "debit" then Some(Debit)
    else if key == "pix" then Some(Pix)
    else None
  }

  /** Reading back a stored method key gives the method. */
  lemma KeyMethodRoundTrip(m: PaymentMethod)
    ensures KeyMethod(PaymentMethodKey(m)) == Some(m)
  {
    PaymentMethodKeyInjective(m, KeyMethod(PaymentMethodKey(m)).value);
  }

  /**
   * `methodNames[method] || method`: the display name of a stored method
   * key, or the key itself when it names no known method.
   */
  function MethodNameOrKey(key: string): (r: string)
    ensures forall m :: PaymentMethodKey(m) == key ==> r == PaymentLabel(m)
    ensures (forall m :: PaymentMethodKey(m) != key) ==> r == key
  {
    match KeyMethod(key)
    case Some(m) =>
      MethodKeyUnique(key, m);
      PaymentLabel(m)
    case None => key
  }

  /** Only one method is stored under a key. */
  lemma MethodKeyUnique(key: string, m: PaymentMethod)
    requires PaymentMethodKey(m) == key
    ensures forall m' :: PaymentMethodKey(m') == key ==> m' == m
  {
    forall m' | PaymentMethodKey(m') == key
      ensures m' == m
    {
      PaymentMethodKeyInjective(m', m);
    }
  }

  /** Distinct statuses are shown under distinct labels and distinct badges. */
  lemma StatusLabelsDistinct(a: SaleStatus, b: SaleStatus)
    ensures StatusLabel(a) == StatusLabel(b) <==> a == b
    ensures StatusVariant(a) == StatusVariant(b) <==> a == b
  {
  }

  /** Distinct methods are shown under distinct labels. */
  lemma PaymentLabelsDistinct(a: PaymentMethod, b: PaymentMethod)
    ensures PaymentLabel(a) == PaymentLabel(b) <==> a == b
  {
  }

  /** Two different method keys are shown under different names. */
  lemma DistinctKeysDistinctNames(a: string, b: string)
    requires KeyMethod(a).Some? && KeyMethod(b).Some? && a != b
    ensures MethodNameOrKey(a) != MethodNameOrKey(b)
  {
    PaymentLabelsDistinct(KeyMethod(a).value, KeyMethod(b).value);
  }

  /** A known method key is shown under a method label. */
  lemma KnownKeyLabelled(k: string)
    requires KeyMethod(k).Some?
    ensures IsMethodLabel(MethodNameOrKey(k))
  {
    LabelIsMethodLabel(KeyMethod(k).value);
  }
}
