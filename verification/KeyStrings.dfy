/**
 The cache keys as the format strings of core/crates/cacher/src/keys.rs spell them, next to the
 form that `CacheKeys` reads back.
 */
module KeyStrings {
  import opened Common
  import opened Text
  import opened CacheKeys

  /** Limits and windows under their serialized names. */
  function LimitText(limit: RateLimitKey): string {
    match limit
    case FiatQuoteRequestPerDeviceLimit => "fiatQuoteRequestPerDeviceLimit"
    case FiatQuoteRequestPerIpLimit => "fiatQuoteRequestPerIpLimit"
    case FiatQuoteUrlRequestPerDeviceLimit => "fiatQuoteUrlRequestPerDeviceLimit"
    case FiatQuoteUrlRequestPerIpLimit => "fiatQuoteUrlRequestPerIpLimit"
    case UsernameCreationGlobalLimit => "usernameCreationGlobalLimit"
    case UsernameCreationPerCountryLimit => "usernameCreationPerCountryLimit"
    case UsernameCreationPerDeviceLimit => "usernameCreationPerDeviceLimit"
    case UsernameCreationPerIpLimit => "usernameCreationPerIpLimit"
    case ReferralGlobalLimit => "referralGlobalLimit"
    case ReferralPerCountryLimit => "referralPerCountryLimit"
    case ReferralPerDeviceLimit => "referralPerDeviceLimit"
    case ReferralPerIpLimit => "referralPerIpLimit"
    case ReferralPerUserLimit => "referralPerUserLimit"
    case RedemptionPerUserLimit => "redemptionPerUserLimit"
  }

  function WindowText(window: Window): string {
    match window
    case Minute => "minute"
    case Hour => "hour"
    case Day => "day"
    case Week => "week"
  }

  /** The two fixed words that most format strings begin with. */
  function Words(k: CacheKey): (string, string)
    requires Scoped(k)
  {
    match k
    case ReferralIpCheck(_) => ("referral", "ip_check")
    case InactiveDeviceObserver(_) => ("device", "inactive_observer")
    case FetchAssets(_) => ("fetch", "assets")
    case FetchNftAsset(_) => ("fetch", "nft_asset")
    case PricerCoinInfo(_) => ("pricer", "coin_info")
    case FiatIpCheck(_) => ("fiat", "ip_check")
    case JobStatus(_) => ("jobs", "status")
    case ConsumerStatus(_) => ("consumers", "status")
    case ParserStatus(_) => ("parser", "status")
    case SwapDepositAddresses(_) => ("swap", "deposit_addresses")
    case SwapSendAddresses(_) => ("swap", "send_addresses")
    case ChartsHistory(_) => ("charts", "history")
    case PerpetualTrackedAddresses(_) => ("perpetual", "tracked_addresses")
    case PerpetualActiveAddresses(_) => ("perpetual", "active_addresses")
    case PerpetualPriorityAddresses(_) => ("perpetual", "priority_addresses")
    case PendingTransactions(_) => ("transactions", "pending")
    case TransactionFeeEstimates(_) => ("transactions", "fee_estimates")
    case FetchCoinAddresses(_, _) => ("fetch", "coin_addresses")
    case FetchTokenAddresses(_, _) => ("fetch", "token_addresses")
    case FetchNftAssetsAddresses(_, _) => ("fetch", "nft_assets_addresses")
    case FetchAddressTransactions(_, _) => ("fetch", "address_transactions")
    case FetchTransaction(_, _) => ("fetch", "transaction")
    case AuthNonce(_, _) => ("auth", "nonce")
    case AddressStatus(_, _) => ("address", "status")
    case AlerterStakeRewards(_, _) => ("alerter", "stake_rewards")
    case PerpetualObserverCheckpoint(_, _) => ("perpetual", "last_seen")
    case DeviceStreamEvents(_, _) => ("stream", "device")
    case TransactionFeeEstimatesFresh(_) => ("transactions", "fee_estimates")
    case FiatQuote(_, _, _, _) => ("fiat", "quote")
  }

  /** What follows them. */
  function Tail(k: CacheKey): string
    requires Scoped(k)
  {
    match k
    case ReferralIpCheck(ip) => ip
    case InactiveDeviceObserver(device) => device
    case FetchAssets(asset) => asset
    case FetchNftAsset(asset) => asset
    case PricerCoinInfo(coin) => coin
    case FiatIpCheck(ip) => ip
    case JobStatus(name) => name
    case ConsumerStatus(name) => name
    case ParserStatus(chain) => chain
    case SwapDepositAddresses(provider) => provider
    case SwapSendAddresses(provider) => provider
    case ChartsHistory(provider) => provider
    case PerpetualTrackedAddresses(chain) => chain
    case PerpetualActiveAddresses(chain) => chain
    case PerpetualPriorityAddresses(chain) => chain
    case PendingTransactions(chain) => chain
    case TransactionFeeEstimates(chain) => chain
    case FetchCoinAddresses(chain, address) => Pair(chain, address)
    case FetchTokenAddresses(chain, address) => Pair(chain, address)
    case FetchNftAssetsAddresses(chain, address) => Pair(chain, address)
    case FetchAddressTransactions(chain, address) => Pair(chain, address)
    case FetchTransaction(chain, hash) => Pair(chain, hash)
    case AuthNonce(device, nonce) => Pair(device, nonce)
    case AddressStatus(chain, address) => Pair(chain, address)
    case AlerterStakeRewards(chain, address) => Pair(chain, address)
    case PerpetualObserverCheckpoint(chain, address) => Pair(chain, address)
    case DeviceStreamEvents(device, _) => Pair("events", device)
    case TransactionFeeEstimatesFresh(chain) => Pair("fresh", chain)
    case FiatQuote(device, wallet, ip, quote) =>
      Pair(SignedDecimal(device), Pair(SignedDecimal(wallet), Pair(ip, quote)))
  }

  lemma {:induction false} HeadsAgree(k: CacheKey)
    requires Scoped(k)
    ensures HeadName(ScopeOf(k).0) == Words(k).0
  {
  }

  /** One argument after the two words. */
  predicate OneArgument(k: CacheKey) {
    k.ReferralIpCheck? || k.InactiveDeviceObserver? || k.FetchAssets? || k.FetchNftAsset? || k.PricerCoinInfo?
    || k.FiatIpCheck? || k.JobStatus? || k.ConsumerStatus? || k.ParserStatus? || k.SwapDepositAddresses?
    || k.SwapSendAddresses? || k.ChartsHistory? || k.PerpetualTrackedAddresses? || k.PerpetualActiveAddresses?
    || k.PerpetualPriorityAddresses? || k.PendingTransactions? || k.TransactionFeeEstimates?
  }

  lemma {:induction false} OneArgumentLeaves(k: CacheKey)
    requires OneArgument(k)
    ensures LeafName(ScopeOf(k).1) == Words(k).1
  {
  }

  lemma {:induction false} OtherLeaves(k: CacheKey)
    requires Scoped(k) && !OneArgument(k)
    ensures LeafName(ScopeOf(k).1) == Words(k).1
  {
  }

  lemma {:induction false} LeavesAgree(k: CacheKey)
    requires Scoped(k)
    ensures LeafName(ScopeOf(k).1) == Words(k).1
  {
    if OneArgument(k) {
      OneArgumentLeaves(k);
    } else {
      OtherLeaves(k);
    }
  }

  lemma {:induction false} TailsAgree(k: CacheKey)
    requires Scoped(k)
    ensures RestOf(k) == Tail(k)
  {
  }

  lemma {:induction false} NamesAgree(limit: RateLimitKey, window: Window)
    ensures LimitText(limit) == LimitName(limit) && WindowText(window) == WindowName(window)
  {
  }

  /** The key of every variant is the format string of the source with its arguments filled in, colons between. */
  lemma {:induction false} KeyInFull(k: CacheKey)
    ensures Scoped(k) ==> Key(k) == Pair(Words(k).0, Pair(Words(k).1, Tail(k)))
    ensures k.Price? ==> Key(k) == Pair("prices", k.asset)
    ensures k.FiatRates? ==> Key(k) == Pair("fiat", "rates")
    ensures k.Markets? ==> Key(k) == Pair("markets", "markets")
    ensures k.ObservedAssets? ==> Key(k) == Pair("pricer", "observed_assets")
    ensures k.RateLimit? ==> Key(k) == Pair("rate_limit", Pair(LimitText(k.limit), Pair(WindowText(k.window), k.scope)))
  {
    if Scoped(k) {
      ScopedInFull(k);
    } else if k.RateLimit? {
      LimitInFull(k);
    } else {
      FixedInFull(k);
    }
  }

  lemma {:induction false} ScopedInFull(k: CacheKey)
    requires Scoped(k)
    ensures Key(k) == Pair(Words(k).0, Pair(Words(k).1, Tail(k)))
  {
    KeyScoped(k);
    HeadsAgree(k);
    LeavesAgree(k);
    TailsAgree(k);
  }

  lemma {:induction false} FixedInFull(k: CacheKey)
    ensures k.Price? ==> Key(k) == Pair("prices", k.asset)
    ensures k.FiatRates? ==> Key(k) == Pair("fiat", "rates")
    ensures k.Markets? ==> Key(k) == Pair("markets", "markets")
    ensures k.ObservedAssets? ==> Key(k) == Pair("pricer", "observed_assets")
  {
  }

  lemma {:induction false} LimitInFull(k: CacheKey)
    requires k.RateLimit?
    ensures Key(k) == Pair("rate_limit", Pair(LimitText(k.limit), Pair(WindowText(k.window), k.scope)))
  {
    NamesAgree(k.limit, k.window);
  }

  /** The token key, whose format string is in core/crates/cacher/src/access_token.rs. */
  lemma {:induction false} TokenKeyInFull(provider: string)
    ensures AccessTokenKey(provider) == Pair("access_token", provider)
  {
  }

  /** The lifetimes that the protocols rely on, in seconds. */
  lemma {:induction false} LifetimesInSeconds(k: CacheKey)
    ensures k.AuthNonce? || k.FiatQuote? ==> Ttl(k) == 300
    ensures k.RateLimit? ==>
      Ttl(k) == match k.window case Minute => 60 case Hour => 3_600 case Day => 86_400 case Week => 604_800
    ensures k.DeviceStreamEvents? ==> Ttl(k) == k.ttl
  {
  }
}
