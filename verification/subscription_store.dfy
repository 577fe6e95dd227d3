/** The subscription store (src/store/subscriptionStore.ts) as pure state
    transitions. The purchase itself is simulated in the application, so a
    purchase only builds the new state; the clock is the parameter `now`, in
    milliseconds. */
module SubscriptionStore {
  import opened Types
  import opened Text

  datatype Tier = Free | Monthly | Annual

  datatype Feature = Feature(key: string, name: string, description: string, enabled: bool)

  datatype SubscriptionState = SubscriptionState(
    isActive: bool,
    tier: Tier,
    scansRemaining: int,
    maxScans: int,
    expiryDate: Option<int>,
    features: seq<Feature>)

  /** The four premium features, all disabled in the free plan. */
  const InitialFeatures: seq<Feature> := [
    Feature("max_scans", "月間最大1,000件のスキャン",
            "プレミアムプランで月間1,000件まで名刺をスキャンできます", false),
    Feature("no_ads", "アプリ内の広告を削除",
            "広告なしでスムーズに名刺管理ができます", false),
    Feature("export_contacts", "連絡先にエクスポート可能",
            "スキャンした名刺を連絡先アプリに直接エクスポートできます", false),
    Feature("excel_export", "Excelにエクスポート",
            "名刺データをExcel形式でエクスポートできます", false)
  ]

  const FreeScans: int := 50
  const PremiumScans: int := 1000
  const DayMs: int := 24 * 60 * 60 * 1000

  /** The free plan: inactive, 50 scans, no expiry. */
  const InitialSubscription: SubscriptionState :=
    SubscriptionState(false, Free, FreeScans, FreeScans, None, InitialFeatures)

  /** `updateScansRemaining`: the count is set, not decremented, and clamped
      at zero; nothing else changes. */
  function UpdateScansRemaining(s: SubscriptionState, count: int): (r: SubscriptionState)
    ensures r.scansRemaining >= 0
    ensures count >= 0 ==> r.scansRemaining == count
    ensures count < 0 ==> r.scansRemaining == 0
    ensures r.(scansRemaining := s.scansRemaining) == s
  {
    s.(scansRemaining := if count > 0 then count else 0)
  }

  function EnableAll(fs: seq<Feature>): (r: seq<Feature>)
    ensures |r| == |fs|
    ensures forall i :: 0 <= i < |fs| ==> r[i] == fs[i].(enabled := true)
  {
    seq(|fs|, i requires 0 <= i < |fs| => fs[i].(enabled := true))
  }

  /** `purchaseSubscription`: the annual plan exactly when the product id
      contains "annual", otherwise the monthly one; 1000 scans; expiry 365 or
      30 days after `now`; the features of the free plan, all enabled. The
      state before the purchase is replaced entirely. */
  function PurchaseSubscription(productId: string, now: int): (r: SubscriptionState)
    ensures r.isActive
    ensures r.tier == (if Contains(productId, "annual") then Annual else Monthly)
    ensures r.scansRemaining == PremiumScans && r.maxScans == PremiumScans
    ensures r.expiryDate == Some(now + (if r.tier == Annual then 365 else 30) * DayMs)
    ensures |r.features| == |InitialFeatures|
    ensures forall i :: 0 <= i < |r.features| ==>
              r.features[i].key == InitialFeatures[i].key && r.features[i].enabled
  {
    var annual := Contains(productId, "annual");
    SubscriptionState(
      true,
      if annual then Annual else Monthly,
      PremiumScans,
      PremiumScans,
      Some(now + (if annual then 365 else 30) * 24 * 60 * 60 * 1000),
      EnableAll(InitialFeatures))
  }

  /** The subscription has lapsed: it has an expiry and `now` is past it. */
  predicate Expired(s: SubscriptionState, now: int)
  {
    s.expiryDate.Some? && now > s.expiryDate.value
  }

  /** `checkSubscriptionStatus`: a lapsed subscription falls back to the free
      plan; any other state is kept. */
  function CheckSubscriptionStatus(s: SubscriptionState, now: int): (r: SubscriptionState)
    ensures Expired(s, now) ==> r == InitialSubscription
    ensures !Expired(s, now) ==> r == s
    ensures !Expired(r, now)
  {
    if s.expiryDate.Some? && now > s.expiryDate.value
    then InitialSubscription.(scansRemaining := FreeScans)
    else s
  }

  /** Checking twice at the same time is checking once. */
  lemma CheckIdempotent(s: SubscriptionState, now: int)
    ensures CheckSubscriptionStatus(CheckSubscriptionStatus(s, now), now) == CheckSubscriptionStatus(s, now)
  {
  }

  /** A purchase stays active up to and including its expiry instant and falls
      back to the free plan after it. */
  lemma PurchaseLifetime(productId: string, bought: int, now: int)
    ensures var p := PurchaseSubscription(productId, bought);
            var expiry := bought + (if Contains(productId, "annual") then 365 else 30) * DayMs;
            (now <= expiry ==> CheckSubscriptionStatus(p, now) == p) &&
            (now > expiry ==> CheckSubscriptionStatus(p, now) == InitialSubscription)
  {
  }

  /** The free plan never lapses. */
  lemma FreePlanKept(now: int)
    ensures CheckSubscriptionStatus(InitialSubscription, now) == InitialSubscription
  {
  }
}
