/**
 * Store accessibility and expiry classification (lib/store-utils.ts).
 * The current instant `now` is a parameter, in milliseconds like `expiresAt`.
 */
module StoreUtils {
  import opened Wrappers
  import opened Types

  /** Milliseconds in a day: 1000 * 60 * 60 * 24. */
  const MsPerDay: int := 86400000

  /** Days within which an expiring store is flagged as "expiring soon". */
  const SoonDays: int := 7

  /** `Math.ceil(a / d)` for a positive divisor, on integers. */
  function CeilDiv(a: int, d: int): (r: int)
    requires d > 0
    ensures (r - 1) * d < a <= r * d
  {
    -((-a) / d)
  }

  /** `isStoreAccessible`: active, and not past its expiry (the expiry instant itself still counts). */
  function IsStoreAccessible(store: Store, now: int): (r: bool)
    ensures !store.isActive ==> !r
    ensures store.isActive && store.expiresAt.None? ==> r
    ensures store.isActive && store.expiresAt.Some? ==> (r <==> now <= store.expiresAt.value)
  {
    if !store.isActive then false
    else if store.expiresAt.Some? && now > store.expiresAt.value then false
    else true
  }

  /** `getDaysUntilExpiration`: whole days left, rounded up; absent for a store without expiry. */
  function DaysUntilExpiration(store: Store, now: int): (r: Option<int>)
    ensures r.None? <==> store.expiresAt.None?
    ensures r.Some? ==> (r.value - 1) * MsPerDay < store.expiresAt.value - now <= r.value * MsPerDay
  {
    match store.expiresAt
    case None => None
    case Some(e) => Some(CeilDiv(e - now, MsPerDay))
  }

  /** The `status` of `getExpirationStatus`, with the day count its message shows. */
  datatype Expiration = Unlimited | Expired | ExpiringSoon(days: int) | Active(days: int)

  /** `getExpirationStatus`: classifies the expiry date only; `isActive` plays no part. */
  function ExpirationStatus(store: Store, now: int): (r: Expiration)
    ensures r == Unlimited <==> store.expiresAt.None?
    ensures r.ExpiringSoon? ==> 0 <= r.days <= SoonDays
    ensures r.Active? ==> r.days > SoonDays
  {
    match DaysUntilExpiration(store, now)
    case None => Unlimited
    case Some(days) =>
      if days < 0 then Expired
      else if days <= SoonDays then ExpiringSoon(days)
      else Active(days)
  }

  // ---------------------------------------------------------------------------
  // Properties

  /** The three dated statuses partition the day count. */
  lemma StatusPartition(store: Store, now: int)
    requires store.expiresAt.Some?
    ensures var days := DaysUntilExpiration(store, now).value;
            && (ExpirationStatus(store, now) == Expired <==> days < 0)
            && (ExpirationStatus(store, now).ExpiringSoon? <==> 0 <= days <= SoonDays)
            && (ExpirationStatus(store, now).Active? <==> days > SoonDays)
  {
  }

  /** "expired" is only shown once a whole day has passed since the expiry instant. */
  lemma ExpiredExactly(store: Store, now: int)
    requires store.expiresAt.Some?
    ensures ExpirationStatus(store, now) == Expired <==> now >= store.expiresAt.value + MsPerDay
  {
    var e := store.expiresAt.value;
    var days := CeilDiv(e - now, MsPerDay);
    if now >= e + MsPerDay {
      assert e - now <= -MsPerDay;
      assert (days - 1) * MsPerDay < -MsPerDay;
    } else {
      assert (days + 1) * MsPerDay > 0;
    }
  }

  /** An "expired" store is past its expiry, so it is not accessible. */
  lemma ExpiredIsInaccessible(store: Store, now: int)
    requires ExpirationStatus(store, now) == Expired
    ensures now > store.expiresAt.value
    ensures !IsStoreAccessible(store, now)
  {
    ExpiredExactly(store, now);
  }

  /**
   * The status lags accessibility: during the first day after expiry an
   * active store is already inaccessible but still shown as expiring soon
   * with 0 days left.
   */
  lemma ExpiringSoonButInaccessible(store: Store, now: int)
    requires store.isActive && store.expiresAt.Some?
    requires store.expiresAt.value < now < store.expiresAt.value + MsPerDay
    ensures ExpirationStatus(store, now) == ExpiringSoon(0)
    ensures !IsStoreAccessible(store, now)
  {
    var days := CeilDiv(store.expiresAt.value - now, MsPerDay);
    assert (days - 1) * MsPerDay < 0;
    assert days * MsPerDay > -MsPerDay;
  }

  /** Blocking or unblocking a store never changes its expiry status. */
  lemma StatusIgnoresActive(store: Store, now: int, active: bool)
    ensures ExpirationStatus(store.(isActive := active), now) == ExpirationStatus(store, now)
  {
  }

  /** The store list's counters: an accessible store is never a blocked one. */
  lemma AccessibleNotBlocked(store: Store, now: int)
    ensures IsStoreAccessible(store, now) ==> store.isActive
  {
  }
}
