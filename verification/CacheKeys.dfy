/**
 Redis key strings (core/crates/cacher/src/keys.rs) as an encoding of `CacheKey`.

 `Read` recovers a key from its string. On the keys of `WellFormed` it inverts `Key`, so distinct
 keys never share a string; every key outside `WellFormed` does share its string with one inside.
 */
module CacheKeys {
  import opened Common
  import opened Text

  const MINUTE := 60
  const HOUR := 60 * MINUTE
  const DAY := 24 * HOUR
  const WEEK := 7 * DAY

  datatype Window = Minute | Hour | Day | Week

  datatype RateLimitKey =
    | FiatQuoteRequestPerDeviceLimit
    | FiatQuoteRequestPerIpLimit
    | FiatQuoteUrlRequestPerDeviceLimit
    | FiatQuoteUrlRequestPerIpLimit
    | UsernameCreationGlobalLimit
    | UsernameCreationPerCountryLimit
    | UsernameCreationPerDeviceLimit
    | UsernameCreationPerIpLimit
    | ReferralGlobalLimit
    | ReferralPerCountryLimit
    | ReferralPerDeviceLimit
    | ReferralPerIpLimit
    | ReferralPerUserLimit
    | RedemptionPerUserLimit

  type i32 = x: int | -0x8000_0000 <= x < 0x8000_0000

  datatype CacheKey =
    | ReferralIpCheck(ip: string)
    | InactiveDeviceObserver(device: string)
    | FetchAssets(asset: string)
    | FetchNftAsset(asset: string)
    | PricerCoinInfo(coin: string)
    | FiatIpCheck(ip: string)
    | JobStatus(name: string)
    | ConsumerStatus(name: string)
    | ParserStatus(chain: string)
    | SwapDepositAddresses(provider: string)
    | SwapSendAddresses(provider: string)
    | ChartsHistory(provider: string)
    | PerpetualTrackedAddresses(chain: string)
    | PerpetualActiveAddresses(chain: string)
    | PerpetualPriorityAddresses(chain: string)
    | PendingTransactions(chain: string)
    | FetchCoinAddresses(chain: string, address: string)
    | FetchTokenAddresses(chain: string, address: string)
    | FetchNftAssetsAddresses(chain: string, address: string)
    | FetchAddressTransactions(chain: string, address: string)
    | FetchTransaction(chain: string, hash: string)
    | AuthNonce(device: string, nonce: string)
    | AddressStatus(chain: string, address: string)
    | AlerterStakeRewards(chain: string, address: string)
    | PerpetualObserverCheckpoint(chain: string, address: string)
    | DeviceStreamEvents(device: string, ttl: nat)
    | Price(asset: string)
    | FiatRates
    | FiatQuote(deviceRow: i32, walletRow: i32, ip: string, quote: string)
    | RateLimit(limit: RateLimitKey, scope: string, window: Window)
    | Markets
    | ObservedAssets
    | TransactionFeeEstimates(chain: string)
    | TransactionFeeEstimatesFresh(chain: string)

  // ---------------------------------------------------------------- fixed words

  /** First segments. */
  datatype Head =
    | ReferralHead
    | DeviceHead
    | FetchHead
    | PricerHead
    | FiatHead
    | JobsHead
    | ConsumersHead
    | ParserHead
    | SwapHead
    | ChartsHead
    | PerpetualHead
    | TransactionsHead
    | AuthHead
    | AddressHead
    | AlerterHead
    | StreamHead
    | PricesHead
    | MarketsHead
    | RateLimitHead
    | AccessTokenHead

  /** Second segments, other than rate-limit names. */
  datatype Leaf =
    | IpCheckLeaf
    | InactiveObserverLeaf
    | AssetsLeaf
    | NftAssetLeaf
    | CoinInfoLeaf
    | StatusLeaf
    | DepositAddressesLeaf
    | SendAddressesLeaf
    | HistoryLeaf
    | TrackedAddressesLeaf
    | ActiveAddressesLeaf
    | PriorityAddressesLeaf
    | PendingLeaf
    | CoinAddressesLeaf
    | TokenAddressesLeaf
    | NftAssetsAddressesLeaf
    | AddressTransactionsLeaf
    | TransactionLeaf
    | NonceLeaf
    | StakeRewardsLeaf
    | LastSeenLeaf
    | DeviceLeaf
    | QuoteLeaf
    | FeeEstimatesLeaf

  function HeadName(x: Head): string {
    match x
    case ReferralHead => "referral"
    case DeviceHead => "device"
    case FetchHead => "fetch"
    case PricerHead => "pricer"
    case FiatHead => "fiat"
    case JobsHead => "jobs"
    case ConsumersHead => "consumers"
    case ParserHead => "parser"
    case SwapHead => "swap"
    case ChartsHead => "charts"
    case PerpetualHead => "perpetual"
    case TransactionsHead => "transactions"
    case AuthHead => "auth"
    case AddressHead => "address"
    case AlerterHead => "alerter"
    case StreamHead => "stream"
    case PricesHead => "prices"
    case MarketsHead => "markets"
    case RateLimitHead => "rate_limit"
    case AccessTokenHead => "access_token"
  }

  function LeafName(x: Leaf): string {
    match x
    case IpCheckLeaf => "ip_check"
    case InactiveObserverLeaf => "inactive_observer"
    case AssetsLeaf => "assets"
    case NftAssetLeaf => "nft_asset"
    case CoinInfoLeaf => "coin_info"
    case StatusLeaf => "status"
    case DepositAddressesLeaf => "deposit_addresses"
    case SendAddressesLeaf => "send_addresses"
    case HistoryLeaf => "history"
    case TrackedAddressesLeaf => "tracked_addresses"
    case ActiveAddressesLeaf => "active_addresses"
    case PriorityAddressesLeaf => "priority_addresses"
    case PendingLeaf => "pending"
    case CoinAddressesLeaf => "coin_addresses"
    case TokenAddressesLeaf => "token_addresses"
    case NftAssetsAddressesLeaf => "nft_assets_addresses"
    case AddressTransactionsLeaf => "address_transactions"
    case TransactionLeaf => "transaction"
    case NonceLeaf => "nonce"
    case StakeRewardsLeaf => "stake_rewards"
    case LastSeenLeaf => "last_seen"
    case DeviceLeaf => "device"
    case QuoteLeaf => "quote"
    case FeeEstimatesLeaf => "fee_estimates"
  }

  function LimitName(x: RateLimitKey): string {
    match x
    case FiatQuoteRequestPerDeviceLimit => "fiatQuoteRequestPerDeviceLimit"
    case FiatQuoteRequestPerIpLimit => "fiatQuoteRequestPerIpLimit"
    case FiatQuoteUrlRequestPerDeviceLimit => "fiatQuoteUrlRequestPerDeviceLimit"
    case FiatQuoteUrlRequestPerIpLimit => "fiatQuoteUrlRequestPerIpLimit"
    case UsernameCreationGlobalLimit => "usernameCreationGlobalLimit"
    case UsernameCreationPerCountryLimit => "usernameCreationPerCountryLimit"
    case UsernameCreationPerDeviceLimit => "usernameCreationPerDeviceLimit"
    case UsernameCreationPerIpLimit => "usernameCreationPerIpLimit"
    case ReferralGlobalLimit => "referralGlobalLimit"
    case ReferralPerCountryLimit => "referralPerCountryLimit"
    case ReferralPerDeviceLimit => "referralPerDeviceLimit"
    case ReferralPerIpLimit => "referralPerIpLimit"
    case ReferralPerUserLimit => "referralPerUserLimit"
    case RedemptionPerUserLimit => "redemptionPerUserLimit"
  }

  function WindowName(x: Window): string {
    match x
    case Minute => "minute"
    case Hour => "hour"
    case Day => "day"
    case Week => "week"
  }

  function WindowSeconds(w: Window): nat {
    match w
    case Minute => MINUTE
    case Hour => HOUR
    case Day => DAY
    case Week => WEEK
  }

  // Each word is told apart by its length and at most one character.

  function HeadOf(s: string): Head {
    if |s| == 4 then
      (if s[0] == 'f' then FiatHead
       else if s[0] == 'j' then JobsHead
       else if s[0] == 's' then SwapHead
       else AuthHead)
    else if |s| == 6 then
      (if s[1] == 'e' then DeviceHead
       else if s[1] == 'r' then (if s[5] == 'r' then PricerHead else PricesHead)
       else if s[1] == 'a' then ParserHead
       else if s[1] == 'h' then ChartsHead
       else StreamHead)
    else if |s| == 7 then (if s[1] == 'd' then AddressHead else if s[1] == 'l' then AlerterHead else MarketsHead)
    else if |s| == 9 then (if s[0] == 'c' then ConsumersHead else PerpetualHead)
    else if |s| == 12 then (if s[0] == 't' then TransactionsHead else AccessTokenHead)
    else if |s| == 5 then FetchHead
    else if |s| == 8 then ReferralHead
    else RateLimitHead
  }

  function LeafOf(s: string): Leaf {
    if |s| == 5 then (if s[0] == 'n' then NonceLeaf else QuoteLeaf)
    else if |s| == 6 then (if s[0] == 'a' then AssetsLeaf else if s[0] == 's' then StatusLeaf else DeviceLeaf)
    else if |s| == 7 then (if s[0] == 'h' then HistoryLeaf else PendingLeaf)
    else if |s| == 9 then (if s[0] == 'n' then NftAssetLeaf else if s[0] == 'c' then CoinInfoLeaf else LastSeenLeaf)
    else if |s| == 13 then (if s[0] == 's' then StakeRewardsLeaf else FeeEstimatesLeaf)
    else if |s| == 14 then (if s[0] == 's' then SendAddressesLeaf else CoinAddressesLeaf)
    else if |s| == 17 then
      (if s[0] == 'i' then InactiveObserverLeaf
       else if s[0] == 'd' then DepositAddressesLeaf
       else TrackedAddressesLeaf)
    else if |s| == 20 then (if s[0] == 'n' then NftAssetsAddressesLeaf else AddressTransactionsLeaf)
    else if |s| == 8 then IpCheckLeaf
    else if |s| == 11 then TransactionLeaf
    else if |s| == 15 then TokenAddressesLeaf
    else if |s| == 16 then ActiveAddressesLeaf
    else PriorityAddressesLeaf
  }

  function LimitOf(s: string): RateLimitKey {
    if |s| == 22 then (if s[2] == 'f' then ReferralPerDeviceLimit else RedemptionPerUserLimit)
    else if |s| == 26 then (if s[0] == 'f' then FiatQuoteRequestPerIpLimit else UsernameCreationPerIpLimit)
    else if |s| == 30 then (if s[0] == 'f' then FiatQuoteRequestPerDeviceLimit else UsernameCreationPerDeviceLimit)
    else if |s| == 18 then ReferralPerIpLimit
    else if |s| == 19 then ReferralGlobalLimit
    else if |s| == 20 then ReferralPerUserLimit
    else if |s| == 23 then ReferralPerCountryLimit
    else if |s| == 27 then UsernameCreationGlobalLimit
    else if |s| == 29 then FiatQuoteUrlRequestPerIpLimit
    else if |s| == 31 then UsernameCreationPerCountryLimit
    else FiatQuoteUrlRequestPerDeviceLimit
  }

  function WindowOf(s: string): Window {
    if |s| == 4 then (if s[0] == 'h' then Hour else Week)
    else if |s| == 3 then Day
    else Minute
  }

  lemma {:induction false} HeadsLackColon()
    ensures Lacks("referral", ':')
    ensures Lacks("device", ':')
    ensures Lacks("fetch", ':')
    ensures Lacks("pricer", ':')
    ensures Lacks("fiat", ':')
    ensures Lacks("jobs", ':')
    ensures Lacks("consumers", ':')
    ensures Lacks("parser", ':')
    ensures Lacks("swap", ':')
    ensures Lacks("charts", ':')
    ensures Lacks("perpetual", ':')
    ensures Lacks("transactions", ':')
    ensures Lacks("auth", ':')
    ensures Lacks("address", ':')
    ensures Lacks("alerter", ':')
    ensures Lacks("stream", ':')
    ensures Lacks("prices", ':')
    ensures Lacks("markets", ':')
    ensures Lacks("rate_limit", ':')
    ensures Lacks("access_token", ':')
  {
  }

  lemma {:induction false} LeavesLackColon0()
    ensures Lacks("ip_check", ':')
    ensures Lacks("inactive_observer", ':')
    ensures Lacks("assets", ':')
    ensures Lacks("nft_asset", ':')
    ensures Lacks("coin_info", ':')
    ensures Lacks("status", ':')
    ensures Lacks("deposit_addresses", ':')
    ensures Lacks("send_addresses", ':')
    ensures Lacks("history", ':')
    ensures Lacks("tracked_addresses", ':')
    ensures Lacks("active_addresses", ':')
    ensures Lacks("priority_addresses", ':')
  {
  }

  lemma {:induction false} LeavesLackColon1()
    ensures Lacks("pending", ':')
    ensures Lacks("coin_addresses", ':')
    ensures Lacks("token_addresses", ':')
    ensures Lacks("nft_assets_addresses", ':')
    ensures Lacks("address_transactions", ':')
    ensures Lacks("transaction", ':')
    ensures Lacks("nonce", ':')
    ensures Lacks("stake_rewards", ':')
    ensures Lacks("last_seen", ':')
    ensures Lacks("device", ':')
    ensures Lacks("quote", ':')
    ensures Lacks("fee_estimates", ':')
  {
  }

  lemma {:induction false} LimitsLackColon0()
    ensures Lacks("fiatQuoteRequestPerDeviceLimit", ':')
    ensures Lacks("fiatQuoteRequestPerIpLimit", ':')
    ensures Lacks("fiatQuoteUrlRequestPerDeviceLimit", ':')
    ensures Lacks("fiatQuoteUrlRequestPerIpLimit", ':')
    ensures Lacks("usernameCreationGlobalLimit", ':')
  {
  }

  lemma {:induction false} LimitsLackColon1()
    ensures Lacks("usernameCreationPerCountryLimit", ':')
    ensures Lacks("usernameCreationPerDeviceLimit", ':')
    ensures Lacks("usernameCreationPerIpLimit", ':')
    ensures Lacks("referralGlobalLimit", ':')
    ensures Lacks("referralPerCountryLimit", ':')
  {
  }

  lemma {:induction false} LimitsLackColon2()
    ensures Lacks("referralPerDeviceLimit", ':')
    ensures Lacks("referralPerIpLimit", ':')
    ensures Lacks("referralPerUserLimit", ':')
    ensures Lacks("redemptionPerUserLimit", ':')
  {
  }

  lemma {:induction false} ReadHead(x: Head)
    ensures HeadOf(HeadName(x)) == x && Lacks(HeadName(x), ':')
  {
    HeadsLackColon();
  }

  lemma {:induction false} ReadLeaf(x: Leaf)
    ensures LeafOf(LeafName(x)) == x && Lacks(LeafName(x), ':')
  {
    LeavesLackColon0();
    LeavesLackColon1();
  }

  lemma {:induction false} ReadLimit(x: RateLimitKey)
    ensures LimitOf(LimitName(x)) == x && Lacks(LimitName(x), ':')
  {
    LimitsLackColon0();
    LimitsLackColon1();
    LimitsLackColon2();
  }

  lemma {:induction false} ReadWindow(x: Window)
    ensures WindowOf(WindowName(x)) == x && Lacks(WindowName(x), ':')
  {
  }

  // ---------------------------------------------------------------- the encoding

  function Pair(a: string, b: string): string {
    a + [':'] + b
  }

  function Under(head: Head, leaf: Leaf, rest: string): string {
    Pair(HeadName(head), Pair(LeafName(leaf), rest))
  }

  function QuoteTail(deviceRow: i32, walletRow: i32, ip: string, quote: string): string {
    Pair(SignedDecimal(deviceRow), Pair(SignedDecimal(walletRow), Pair(ip, quote)))
  }

  function Key(k: CacheKey): string {
    match k
    case ReferralIpCheck(ip) => Under(ReferralHead, IpCheckLeaf, ip)
    case InactiveDeviceObserver(device) => Under(DeviceHead, InactiveObserverLeaf, device)
    case FetchAssets(asset) => Under(FetchHead, AssetsLeaf, asset)
    case FetchNftAsset(asset) => Under(FetchHead, NftAssetLeaf, asset)
    case PricerCoinInfo(coin) => Under(PricerHead, CoinInfoLeaf, coin)
    case FiatIpCheck(ip) => Under(FiatHead, IpCheckLeaf, ip)
    case JobStatus(name) => Under(JobsHead, StatusLeaf, name)
    case ConsumerStatus(name) => Under(ConsumersHead, StatusLeaf, name)
    case ParserStatus(chain) => Under(ParserHead, StatusLeaf, chain)
    case SwapDepositAddresses(provider) => Under(SwapHead, DepositAddressesLeaf, provider)
    case SwapSendAddresses(provider) => Under(SwapHead, SendAddressesLeaf, provider)
    case ChartsHistory(provider) => Under(ChartsHead, HistoryLeaf, provider)
    case PerpetualTrackedAddresses(chain) => Under(PerpetualHead, TrackedAddressesLeaf, chain)
    case PerpetualActiveAddresses(chain) => Under(PerpetualHead, ActiveAddressesLeaf, chain)
    case PerpetualPriorityAddresses(chain) => Under(PerpetualHead, PriorityAddressesLeaf, chain)
    case PendingTransactions(chain) => Under(TransactionsHead, PendingLeaf, chain)
    case FetchCoinAddresses(chain, address) => Under(FetchHead, CoinAddressesLeaf, Pair(chain, address))
    case FetchTokenAddresses(chain, address) => Under(FetchHead, TokenAddressesLeaf, Pair(chain, address))
    case FetchNftAssetsAddresses(chain, address) => Under(FetchHead, NftAssetsAddressesLeaf, Pair(chain, address))
    case FetchAddressTransactions(chain, address) => Under(FetchHead, AddressTransactionsLeaf, Pair(chain, address))
    case FetchTransaction(chain, hash) => Under(FetchHead, TransactionLeaf, Pair(chain, hash))
    case AuthNonce(device, nonce) => Under(AuthHead, NonceLeaf, Pair(device, nonce))
    case AddressStatus(chain, address) => Under(AddressHead, StatusLeaf, Pair(chain, address))
    case AlerterStakeRewards(chain, address) => Under(AlerterHead, StakeRewardsLeaf, Pair(chain, address))
    case PerpetualObserverCheckpoint(chain, address) => Under(PerpetualHead, LastSeenLeaf, Pair(chain, address))
    case DeviceStreamEvents(device, _) => Under(StreamHead, DeviceLeaf, Pair("events", device))
    case Price(asset) => Pair(HeadName(PricesHead), asset)
    case FiatRates => Pair(HeadName(FiatHead), "rates")
    case FiatQuote(d, w, ip, quote) => Under(FiatHead, QuoteLeaf, QuoteTail(d, w, ip, quote))
    case RateLimit(limit, scope, window) =>
      Pair(HeadName(RateLimitHead), Pair(LimitName(limit), Pair(WindowName(window), scope)))
    case Markets => Pair(HeadName(MarketsHead), "markets")
    case ObservedAssets => Pair(HeadName(PricerHead), "observed_assets")
    case TransactionFeeEstimates(chain) => Under(TransactionsHead, FeeEstimatesLeaf, chain)
    case TransactionFeeEstimatesFresh(chain) => Under(TransactionsHead, FeeEstimatesLeaf, Pair("fresh", chain))
  }

  /** Lifetime in seconds. */
  function Ttl(k: CacheKey): nat {
    match k
    case ReferralIpCheck(_) => 30 * DAY
    case InactiveDeviceObserver(_) => 30 * DAY
    case FetchAssets(_) => 30 * DAY
    case FetchNftAsset(_) => HOUR
    case PricerCoinInfo(_) => DAY
    case FiatIpCheck(_) => DAY
    case JobStatus(_) => 7 * DAY
    case ConsumerStatus(_) => 7 * DAY
    case ParserStatus(_) => 7 * DAY
    case SwapDepositAddresses(_) => 7 * DAY
    case SwapSendAddresses(_) => 7 * DAY
    case ChartsHistory(_) => 10 * 365 * DAY
    case PerpetualTrackedAddresses(_) => 2 * HOUR
    case PerpetualActiveAddresses(_) => 30 * MINUTE
    case PerpetualPriorityAddresses(_) => 30 * MINUTE
    case PendingTransactions(_) => 30 * DAY
    case FetchCoinAddresses(_, _) => 7 * DAY
    case FetchTokenAddresses(_, _) => 30 * DAY
    case FetchNftAssetsAddresses(_, _) => 30 * DAY
    case FetchAddressTransactions(_, _) => 30 * DAY
    case FetchTransaction(_, _) => 30 * DAY
    case AuthNonce(_, _) => 5 * MINUTE
    case AddressStatus(_, _) => 31 * DAY
    case AlerterStakeRewards(_, _) => 30 * DAY
    case PerpetualObserverCheckpoint(_, _) => 30 * DAY
    case DeviceStreamEvents(_, ttl) => ttl
    case Price(_) => 30 * DAY
    case FiatRates => DAY
    case FiatQuote(_, _, _, _) => 5 * MINUTE
    case RateLimit(_, _, window) => WindowSeconds(window)
    case Markets => DAY
    case ObservedAssets => 2 * MINUTE
    case TransactionFeeEstimates(_) => 5 * 365 * DAY
    case TransactionFeeEstimatesFresh(_) => HOUR
  }

  /** The stream retention is not part of the key string. */
  function Erase(k: CacheKey): CacheKey {
    if k.DeviceStreamEvents? then k.(ttl := 0) else k
  }

  /** Arguments that another argument follows hold no colon. */
  predicate WellFormed(k: CacheKey) {
    match k
    case FetchCoinAddresses(chain, _) => Lacks(chain, ':')
    case FetchTokenAddresses(chain, _) => Lacks(chain, ':')
    case FetchNftAssetsAddresses(chain, _) => Lacks(chain, ':')
    case FetchAddressTransactions(chain, _) => Lacks(chain, ':')
    case FetchTransaction(chain, _) => Lacks(chain, ':')
    case AuthNonce(device, _) => Lacks(device, ':')
    case AddressStatus(chain, _) => Lacks(chain, ':')
    case AlerterStakeRewards(chain, _) => Lacks(chain, ':')
    case PerpetualObserverCheckpoint(chain, _) => Lacks(chain, ':')
    case FiatQuote(_, _, _, quote) => Lacks(quote, ':')
    case TransactionFeeEstimates(chain) => !("fresh:" <= chain)
    case _ => true
  }

  // ---------------------------------------------------------------- reading back

  function ReadQuote(rest: string): Option<CacheKey> {
    match CutFirst(rest, ':')
    case None => None
    case Some((device, rest)) =>
      match CutFirst(rest, ':')
      case None => None
      case Some((wallet, rest)) =>
        match CutLast(rest, ':')
        case None => None
        case Some((ip, quote)) =>
          var d, w := ParseSigned(device), ParseSigned(wallet);
          if -0x8000_0000 <= d < 0x8000_0000 && -0x8000_0000 <= w < 0x8000_0000
          then Some(FiatQuote(d, w, ip, quote)) else None
  }

  function ReadRateLimit(limit: RateLimitKey, rest: string): Option<CacheKey> {
    match CutFirst(rest, ':')
    case Some((window, scope)) => Some(RateLimit(limit, scope, WindowOf(window)))
    case None => None
  }

  function MakeOne(head: Head, leaf: Leaf, rest: string): Option<CacheKey> {
    match (head, leaf)
    case (ReferralHead, IpCheckLeaf) => Some(ReferralIpCheck(rest))
    case (DeviceHead, InactiveObserverLeaf) => Some(InactiveDeviceObserver(rest))
    case (FetchHead, AssetsLeaf) => Some(FetchAssets(rest))
    case (FetchHead, NftAssetLeaf) => Some(FetchNftAsset(rest))
    case (PricerHead, CoinInfoLeaf) => Some(PricerCoinInfo(rest))
    case (FiatHead, IpCheckLeaf) => Some(FiatIpCheck(rest))
    case (JobsHead, StatusLeaf) => Some(JobStatus(rest))
    case (ConsumersHead, StatusLeaf) => Some(ConsumerStatus(rest))
    case (ParserHead, StatusLeaf) => Some(ParserStatus(rest))
    case (SwapHead, DepositAddressesLeaf) => Some(SwapDepositAddresses(rest))
    case (SwapHead, SendAddressesLeaf) => Some(SwapSendAddresses(rest))
    case (ChartsHead, HistoryLeaf) => Some(ChartsHistory(rest))
    case (PerpetualHead, TrackedAddressesLeaf) => Some(PerpetualTrackedAddresses(rest))
    case (PerpetualHead, ActiveAddressesLeaf) => Some(PerpetualActiveAddresses(rest))
    case (PerpetualHead, PriorityAddressesLeaf) => Some(PerpetualPriorityAddresses(rest))
    case (TransactionsHead, PendingLeaf) => Some(PendingTransactions(rest))
    case _ => None
  }

  function MakeTwo(head: Head, leaf: Leaf, a: string, b: string): Option<CacheKey> {
    match (head, leaf)
    case (FetchHead, CoinAddressesLeaf) => Some(FetchCoinAddresses(a, b))
    case (FetchHead, TokenAddressesLeaf) => Some(FetchTokenAddresses(a, b))
    case (FetchHead, NftAssetsAddressesLeaf) => Some(FetchNftAssetsAddresses(a, b))
    case (FetchHead, AddressTransactionsLeaf) => Some(FetchAddressTransactions(a, b))
    case (FetchHead, TransactionLeaf) => Some(FetchTransaction(a, b))
    case (AuthHead, NonceLeaf) => Some(AuthNonce(a, b))
    case (AddressHead, StatusLeaf) => Some(AddressStatus(a, b))
    case (AlerterHead, StakeRewardsLeaf) => Some(AlerterStakeRewards(a, b))
    case (PerpetualHead, LastSeenLeaf) => Some(PerpetualObserverCheckpoint(a, b))
    case (StreamHead, DeviceLeaf) => Some(DeviceStreamEvents(b, 0))
    case _ => None
  }

  function ReadFees(rest: string): CacheKey {
    if "fresh:" <= rest then TransactionFeeEstimatesFresh(rest[6..]) else TransactionFeeEstimates(rest)
  }

  function ReadScoped(head: Head, leaf: Leaf, rest: string): Option<CacheKey> {
    if head.FiatHead? && leaf.QuoteLeaf? then ReadQuote(rest)
    else if head.TransactionsHead? && leaf.FeeEstimatesLeaf? then Some(ReadFees(rest))
    else if MakeOne(head, leaf, rest).Some? then MakeOne(head, leaf, rest)
    else match CutFirst(rest, ':')
      case Some((a, b)) => MakeTwo(head, leaf, a, b)
      case None => None
  }

  function PlainKey(head: Head): Option<CacheKey> {
    match head
    case FiatHead => Some(FiatRates)
    case MarketsHead => Some(Markets)
    case PricerHead => Some(ObservedAssets)
    case _ => None
  }

  function Read(s: string): Option<CacheKey> {
    match CutFirst(s, ':')
    case None => None
    case Some((a, rest)) =>
      var head := HeadOf(a);
      if head.PricesHead? then Some(Price(rest)) else
      match CutFirst(rest, ':')
      case Some((b, rest')) =>
        if head.RateLimitHead? then ReadRateLimit(LimitOf(b), rest') else ReadScoped(head, LeafOf(b), rest')
      case None => PlainKey(head)
  }

  // ---------------------------------------------------------------- injectivity

  lemma {:induction false} CutPair(a: string, b: string)
    requires Lacks(a, ':')
    ensures CutFirst(Pair(a, b), ':') == Some((a, b))
  {
    CutFirstAt(a, ':', b);
  }

  lemma {:induction false} ReadUnder(head: Head, leaf: Leaf, rest: string)
    requires !head.PricesHead? && !head.RateLimitHead?
    ensures Read(Under(head, leaf, rest)) == ReadScoped(head, leaf, rest)
  {
    ReadHead(head);
    ReadLeaf(leaf);
    CutPair(HeadName(head), Pair(LeafName(leaf), rest));
    CutPair(LeafName(leaf), rest);
  }

  lemma {:induction false} ReadPlain(s: string, head: Head, rest: string)
    requires !head.PricesHead? && Lacks(rest, ':')
    requires s == Pair(HeadName(head), rest)
    ensures Read(s) == PlainKey(head)
  {
    ReadHead(head);
    CutPair(HeadName(head), rest);
  }

  lemma {:induction false} ReadPrice(s: string, asset: string)
    requires s == Pair(HeadName(PricesHead), asset)
    ensures Read(s) == Some(Price(asset))
  {
    ReadHead(PricesHead);
    CutPair(HeadName(PricesHead), asset);
  }

  lemma {:induction false} ReadThrough(s: string, head: Head, leaf: Leaf, rest: string, k: CacheKey)
    requires !head.PricesHead? && !head.RateLimitHead?
    requires s == Under(head, leaf, rest) && ReadScoped(head, leaf, rest) == Some(k)
    ensures Read(s) == Some(k)
  {
    ReadUnder(head, leaf, rest);
  }

  /** Keys of two fixed words and free text. */
  predicate Scoped(k: CacheKey) {
    !k.Price? && !k.FiatRates? && !k.RateLimit? && !k.Markets? && !k.ObservedAssets?
  }

  function ScopeOf(k: CacheKey): (Head, Leaf)
    requires Scoped(k)
  {
    match k
    case ReferralIpCheck(_) => (ReferralHead, IpCheckLeaf)
    case InactiveDeviceObserver(_) => (DeviceHead, InactiveObserverLeaf)
    case FetchAssets(_) => (FetchHead, AssetsLeaf)
    case FetchNftAsset(_) => (FetchHead, NftAssetLeaf)
    case PricerCoinInfo(_) => (PricerHead, CoinInfoLeaf)
    case FiatIpCheck(_) => (FiatHead, IpCheckLeaf)
    case JobStatus(_) => (JobsHead, StatusLeaf)
    case ConsumerStatus(_) => (ConsumersHead, StatusLeaf)
    case ParserStatus(_) => (ParserHead, StatusLeaf)
    case SwapDepositAddresses(_) => (SwapHead, DepositAddressesLeaf)
    case SwapSendAddresses(_) => (SwapHead, SendAddressesLeaf)
    case ChartsHistory(_) => (ChartsHead, HistoryLeaf)
    case PerpetualTrackedAddresses(_) => (PerpetualHead, TrackedAddressesLeaf)
    case PerpetualActiveAddresses(_) => (PerpetualHead, ActiveAddressesLeaf)
    case PerpetualPriorityAddresses(_) => (PerpetualHead, PriorityAddressesLeaf)
    case PendingTransactions(_) => (TransactionsHead, PendingLeaf)
    case FetchCoinAddresses(_, _) => (FetchHead, CoinAddressesLeaf)
    case FetchTokenAddresses(_, _) => (FetchHead, TokenAddressesLeaf)
    case FetchNftAssetsAddresses(_, _) => (FetchHead, NftAssetsAddressesLeaf)
    case FetchAddressTransactions(_, _) => (FetchHead, AddressTransactionsLeaf)
    case FetchTransaction(_, _) => (FetchHead, TransactionLeaf)
    case AuthNonce(_, _) => (AuthHead, NonceLeaf)
    case AddressStatus(_, _) => (AddressHead, StatusLeaf)
    case AlerterStakeRewards(_, _) => (AlerterHead, StakeRewardsLeaf)
    case PerpetualObserverCheckpoint(_, _) => (PerpetualHead, LastSeenLeaf)
    case DeviceStreamEvents(_, _) => (StreamHead, DeviceLeaf)
    case FiatQuote(_, _, _, _) => (FiatHead, QuoteLeaf)
    case TransactionFeeEstimates(_) => (TransactionsHead, FeeEstimatesLeaf)
    case TransactionFeeEstimatesFresh(_) => (TransactionsHead, FeeEstimatesLeaf)
  }

  predicate OneArgument(k: CacheKey) {
    || k.ReferralIpCheck? || k.InactiveDeviceObserver? || k.FetchAssets? || k.FetchNftAsset?
    || k.PricerCoinInfo? || k.FiatIpCheck? || k.JobStatus? || k.ConsumerStatus?
    || k.ParserStatus? || k.SwapDepositAddresses? || k.SwapSendAddresses? || k.ChartsHistory?
    || k.PerpetualTrackedAddresses? || k.PerpetualActiveAddresses? || k.PerpetualPriorityAddresses?
    || k.PendingTransactions?
  }

  function RestOf(k: CacheKey): string
    requires Scoped(k)
  {
    match k
    case ReferralIpCheck(ip) => ip
    case InactiveDeviceObserver(device) => device
    case FetchAssets(asset) => asset
    case FetchNftAsset(asset) => asset
    case PricerCoinInfo(coin) => coin
    case FiatIpCheck(ip) => ip
    case JobStatus(name) => name
    case ConsumerStatus(name) => name
    case ParserStatus(chain) => chain
    case SwapDepositAddresses(provider) => provider
    case SwapSendAddresses(provider) => provider
    case ChartsHistory(provider) => provider
    case PerpetualTrackedAddresses(chain) => chain
    case PerpetualActiveAddresses(chain) => chain
    case PerpetualPriorityAddresses(chain) => chain
    case PendingTransactions(chain) => chain
    case FetchCoinAddresses(chain, address) => Pair(chain, address)
    case FetchTokenAddresses(chain, address) => Pair(chain, address)
    case FetchNftAssetsAddresses(chain, address) => Pair(chain, address)
    case FetchAddressTransactions(chain, address) => Pair(chain, address)
    case FetchTransaction(chain, hash) => Pair(chain, hash)
    case AuthNonce(device, nonce) => Pair(device, nonce)
    case AddressStatus(chain, address) => Pair(chain, address)
    case AlerterStakeRewards(chain, address) => Pair(chain, address)
    case PerpetualObserverCheckpoint(chain, address) => Pair(chain, address)
    case DeviceStreamEvents(device, _) => Pair("events", device)
    case FiatQuote(d, w, ip, quote) => QuoteTail(d, w, ip, quote)
    case TransactionFeeEstimates(chain) => chain
    case TransactionFeeEstimatesFresh(chain) => Pair("fresh", chain)
  }

  lemma {:induction false} KeyScoped(k: CacheKey)
    requires Scoped(k)
    ensures Key(k) == Under(ScopeOf(k).0, ScopeOf(k).1, RestOf(k))
    ensures !ScopeOf(k).0.PricesHead? && !ScopeOf(k).0.RateLimitHead?
  {
  }

  lemma {:induction false} MakeOneBack(k: CacheKey)
    requires OneArgument(k)
    ensures MakeOne(ScopeOf(k).0, ScopeOf(k).1, RestOf(k)) == Some(k)
    ensures !ScopeOf(k).1.QuoteLeaf? && !ScopeOf(k).1.FeeEstimatesLeaf?
  {
  }

  lemma {:induction false} ReadOneAt(head: Head, leaf: Leaf, rest: string, k: CacheKey)
    requires MakeOne(head, leaf, rest) == Some(k) && !leaf.QuoteLeaf? && !leaf.FeeEstimatesLeaf?
    ensures ReadScoped(head, leaf, rest) == Some(k)
  {
  }

  lemma {:induction false} ReadScopedOne(k: CacheKey)
    requires OneArgument(k)
    ensures ReadScoped(ScopeOf(k).0, ScopeOf(k).1, RestOf(k)) == Some(k)
  {
    MakeOneBack(k);
    ReadOneAt(ScopeOf(k).0, ScopeOf(k).1, RestOf(k), k);
  }

  predicate Fetches(k: CacheKey) {
    k.FetchCoinAddresses? || k.FetchTokenAddresses? || k.FetchNftAssetsAddresses? || k.FetchAddressTransactions?
    || k.FetchTransaction?
  }

  lemma {:induction false} ReadScopedFetch(k: CacheKey)
    requires Fetches(k) && WellFormed(k)
    ensures ReadScoped(ScopeOf(k).0, ScopeOf(k).1, RestOf(k)) == Some(k)
  {
    match k
    case FetchCoinAddresses(chain, address) => ReadTwoAt(FetchHead, CoinAddressesLeaf, chain, address, k);
    case FetchTokenAddresses(chain, address) => ReadTwoAt(FetchHead, TokenAddressesLeaf, chain, address, k);
    case FetchNftAssetsAddresses(chain, address) => ReadTwoAt(FetchHead, NftAssetsAddressesLeaf, chain, address, k);
    case FetchAddressTransactions(chain, address) => ReadTwoAt(FetchHead, AddressTransactionsLeaf, chain, address, k);
    case FetchTransaction(chain, hash) => ReadTwoAt(FetchHead, TransactionLeaf, chain, hash, k);
  }

  lemma {:induction false} ReadScopedTwo(k: CacheKey)
    requires Scoped(k) && !OneArgument(k) && !Fetches(k) && WellFormed(k)
    requires !k.FiatQuote? && !k.TransactionFeeEstimates? && !k.TransactionFeeEstimatesFresh?
    ensures ReadScoped(ScopeOf(k).0, ScopeOf(k).1, RestOf(k)) == Some(Erase(k))
  {
    match k
    case AuthNonce(device, nonce) => ReadTwoAt(AuthHead, NonceLeaf, device, nonce, k);
    case AddressStatus(chain, address) => ReadTwoAt(AddressHead, StatusLeaf, chain, address, k);
    case AlerterStakeRewards(chain, address) => ReadTwoAt(AlerterHead, StakeRewardsLeaf, chain, address, k);
    case PerpetualObserverCheckpoint(chain, address) => ReadTwoAt(PerpetualHead, LastSeenLeaf, chain, address, k);
    case DeviceStreamEvents(device, _) => ReadTwoAt(StreamHead, DeviceLeaf, "events", device, Erase(k));
  }

  lemma {:induction false} ReadTwoAt(head: Head, leaf: Leaf, a: string, b: string, k: CacheKey)
    requires Lacks(a, ':') && MakeTwo(head, leaf, a, b) == Some(k)
    ensures ReadScoped(head, leaf, Pair(a, b)) == Some(k)
  {
    CutPair(a, b);
  }

  lemma {:induction false} ReadScopedQuote(d: i32, w: i32, ip: string, quote: string)
    requires Lacks(quote, ':')
    ensures ReadQuote(QuoteTail(d, w, ip, quote)) == Some(FiatQuote(d, w, ip, quote))
  {
    var inner := Pair(ip, quote);
    CutPair(SignedDecimal(d), Pair(SignedDecimal(w), inner));
    CutPair(SignedDecimal(w), inner);
    CutLastAt(ip, ':', quote);
    SignedDecimalRoundTrip(d);
    SignedDecimalRoundTrip(w);
  }

  lemma {:induction false} ReadScopedFees(k: CacheKey)
    requires k.TransactionFeeEstimates? || k.TransactionFeeEstimatesFresh?
    requires WellFormed(k)
    ensures ReadFees(RestOf(k)) == k
  {
  }

  lemma {:induction false} ReadScopedKey(k: CacheKey)
    requires Scoped(k) && WellFormed(k)
    ensures ReadScoped(ScopeOf(k).0, ScopeOf(k).1, RestOf(k)) == Some(Erase(k))
  {
    if OneArgument(k) {
      ReadScopedOne(k);
    } else if k.FiatQuote? {
      ReadScopedQuote(k.deviceRow, k.walletRow, k.ip, k.quote);
    } else if k.TransactionFeeEstimates? || k.TransactionFeeEstimatesFresh? {
      ReadScopedFees(k);
    } else if Fetches(k) {
      ReadScopedFetch(k);
    } else {
      ReadScopedTwo(k);
    }
  }

  lemma {:induction false} ReadRateLimitAt(s: string, limit: RateLimitKey, name: string, rest: string)
    requires s == Pair(HeadName(RateLimitHead), Pair(name, rest)) && Lacks(name, ':') && LimitOf(name) == limit
    ensures Read(s) == ReadRateLimit(limit, rest)
  {
    ReadHead(RateLimitHead);
    CutPair(HeadName(RateLimitHead), Pair(name, rest));
    CutPair(name, rest);
  }

  lemma {:induction false} ReadRateLimitBack(limit: RateLimitKey, scope: string, window: Window)
    ensures Read(Key(RateLimit(limit, scope, window))) == Some(RateLimit(limit, scope, window))
  {
    ReadLimit(limit);
    ReadWindow(window);
    var rest := Pair(WindowName(window), scope);
    ReadRateLimitAt(Key(RateLimit(limit, scope, window)), limit, LimitName(limit), rest);
    CutPair(WindowName(window), scope);
  }

  lemma {:induction false} PlainWordsLackColon()
    ensures Lacks("rates", ':') && Lacks("markets", ':') && Lacks("observed_assets", ':')
  {
  }

  lemma {:induction false} ReadPlainKey(k: CacheKey, head: Head, rest: string)
    requires Key(k) == Pair(HeadName(head), rest) && Lacks(rest, ':')
    requires !head.PricesHead? && PlainKey(head) == Some(k)
    ensures Read(Key(k)) == Some(k)
  {
    ReadPlain(Key(k), head, rest);
  }

  lemma {:induction false} ReadUnscoped(k: CacheKey)
    requires k.Price? || k.FiatRates? || k.Markets? || k.ObservedAssets?
    ensures Read(Key(k)) == Some(k)
  {
    PlainWordsLackColon();
    match k
    case Price(asset) => ReadPrice(Key(k), asset);
    case FiatRates => ReadPlainKey(k, FiatHead, "rates");
    case Markets => ReadPlainKey(k, MarketsHead, "markets");
    case ObservedAssets => ReadPlainKey(k, PricerHead, "observed_assets");
  }

  /** Reading a key string gives the key back. */
  lemma {:induction false} ReadKey(k: CacheKey)
    requires WellFormed(k)
    ensures Read(Key(k)) == Some(Erase(k))
  {
    if Scoped(k) {
      KeyScoped(k);
      ReadScopedKey(k);
      ReadThrough(Key(k), ScopeOf(k).0, ScopeOf(k).1, RestOf(k), Erase(k));
    } else if k.RateLimit? {
      ReadRateLimitBack(k.limit, k.scope, k.window);
    } else {
      ReadUnscoped(k);
    }
  }

  /** No two well-formed keys of any variants collide, whatever their other arguments hold. */
  lemma {:induction false} KeyInjective(a: CacheKey, b: CacheKey)
    requires WellFormed(a) && WellFormed(b)
    requires Key(a) == Key(b)
    ensures Erase(a) == Erase(b)
  {
    ReadKey(a);
    ReadKey(b);
  }

  // ---------------------------------------------------------------- outside the domain

  /** The text before the first colon, and the rest joined to what followed the argument. */
  function Shifted(a: string, b: string): (r: (string, string))
    requires !Lacks(a, ':')
  {
    CutFirstSplits(a, ':');
    var (x, y) := CutFirst(a, ':').value;
    (x, Pair(y, b))
  }

  /** The well-formed key whose string an ill-formed key borrows. */
  function Borrowed(k: CacheKey): CacheKey
    requires !WellFormed(k)
  {
    match k
    case FiatQuote(d, w, ip, quote) =>
      CutLastSplits(quote, ':');
      var (head, tail) := CutLast(quote, ':').value;
      FiatQuote(d, w, Pair(ip, head), tail)
    case TransactionFeeEstimates(chain) => TransactionFeeEstimatesFresh(chain[6..])
    case FetchCoinAddresses(chain, address) => var (x, y) := Shifted(chain, address); FetchCoinAddresses(x, y)
    case FetchTokenAddresses(chain, address) => var (x, y) := Shifted(chain, address); FetchTokenAddresses(x, y)
    case FetchNftAssetsAddresses(chain, address) =>
      var (x, y) := Shifted(chain, address); FetchNftAssetsAddresses(x, y)
    case FetchAddressTransactions(chain, address) =>
      var (x, y) := Shifted(chain, address); FetchAddressTransactions(x, y)
    case FetchTransaction(chain, hash) => var (x, y) := Shifted(chain, hash); FetchTransaction(x, y)
    case AuthNonce(device, nonce) => var (x, y) := Shifted(device, nonce); AuthNonce(x, y)
    case AddressStatus(chain, address) => var (x, y) := Shifted(chain, address); AddressStatus(x, y)
    case AlerterStakeRewards(chain, address) => var (x, y) := Shifted(chain, address); AlerterStakeRewards(x, y)
    case PerpetualObserverCheckpoint(chain, address) =>
      var (x, y) := Shifted(chain, address); PerpetualObserverCheckpoint(x, y)
  }

  lemma {:induction false} PairAssoc(a: string, b: string, c: string)
    ensures Pair(Pair(a, b), c) == Pair(a, Pair(b, c))
  {
    assert a + [':'] + b + [':'] + c == a + [':'] + (b + [':'] + c);
  }

  lemma {:induction false} BorrowPair(a: string, b: string)
    requires !Lacks(a, ':')
    ensures var (x, y) := Shifted(a, b);
            Pair(a, b) == Pair(x, y) && Lacks(x, ':') && x != a
  {
    CutFirstSplits(a, ':');
    var (x, y) := CutFirst(a, ':').value;
    PairAssoc(x, y, b);
  }

  lemma {:induction false} BorrowQuote(ip: string, quote: string)
    requires !Lacks(quote, ':')
    ensures CutLast(quote, ':').Some?
    ensures var (x, y) := CutLast(quote, ':').value;
            Pair(ip, quote) == Pair(Pair(ip, x), y) && Lacks(y, ':') && y != quote
  {
    CutLastSplits(quote, ':');
    var (x, y) := CutLast(quote, ':').value;
    PairAssoc(ip, x, y);
  }

  lemma {:induction false} IllFormedFetch(k: CacheKey)
    requires Fetches(k) && !WellFormed(k)
    ensures WellFormed(Borrowed(k)) && Borrowed(k) != k && Key(Borrowed(k)) == Key(k)
  {
    match k
    case FetchCoinAddresses(chain, address) => BorrowPair(chain, address);
    case FetchTokenAddresses(chain, address) => BorrowPair(chain, address);
    case FetchNftAssetsAddresses(chain, address) => BorrowPair(chain, address);
    case FetchAddressTransactions(chain, address) => BorrowPair(chain, address);
    case FetchTransaction(chain, hash) => BorrowPair(chain, hash);
  }

  lemma {:induction false} IllFormedPair(k: CacheKey)
    requires !Fetches(k) && !k.FiatQuote? && !k.TransactionFeeEstimates? && !WellFormed(k)
    ensures WellFormed(Borrowed(k)) && Borrowed(k) != k && Key(Borrowed(k)) == Key(k)
  {
    match k
    case AuthNonce(device, nonce) => BorrowPair(device, nonce);
    case AddressStatus(chain, address) => BorrowPair(chain, address);
    case AlerterStakeRewards(chain, address) => BorrowPair(chain, address);
    case PerpetualObserverCheckpoint(chain, address) => BorrowPair(chain, address);
  }

  /** The well-formedness condition is exact: every key outside it collides with one inside. */
  lemma {:induction false} IllFormedCollides(k: CacheKey)
    requires !WellFormed(k)
    ensures WellFormed(Borrowed(k)) && Borrowed(k) != k
    ensures Key(Borrowed(k)) == Key(k)
  {
    if Fetches(k) {
      IllFormedFetch(k);
    } else if k.FiatQuote? {
      BorrowQuote(k.ip, k.quote);
    } else if k.TransactionFeeEstimates? {
      assert k.chain == Pair("fresh", k.chain[6..]);
    } else {
      IllFormedPair(k);
    }
  }

  // ---------------------------------------------------------------- access tokens

  /** The key of `AccessTokenCacherClient`, outside the `CacheKey` enumeration. */
  function AccessTokenKey(provider: string): string {
    Pair(HeadName(AccessTokenHead), provider)
  }

  /** Token entries never meet an enumerated key, well-formed or not. */
  lemma {:induction false} AccessTokenKeyApart(provider: string, k: CacheKey)
    ensures AccessTokenKey(provider) != Key(k)
  {
    var k' := if WellFormed(k) then k else Borrowed(k);
    if !WellFormed(k) { IllFormedCollides(k); }
    ReadKey(k');
    ReadAccessToken(AccessTokenKey(provider), provider);
  }

  lemma {:induction false} ReadAccessToken(s: string, provider: string)
    requires s == AccessTokenKey(provider)
    ensures Read(s).None?
  {
    ReadHead(AccessTokenHead);
    CutPair(HeadName(AccessTokenHead), provider);
  }

  lemma {:induction false} AccessTokenKeyInjective(p: string, q: string)
    requires AccessTokenKey(p) == AccessTokenKey(q)
    ensures p == q
  {
    ReadHead(AccessTokenHead);
    CutPair(HeadName(AccessTokenHead), p);
    CutPair(HeadName(AccessTokenHead), q);
  }

  // ---------------------------------------------------------------- everything in one store

  /** Who may write an entry of the shared store. */
  datatype Owner = Enumerated(key: CacheKey) | Token(provider: string)

  function OwnedKey(owner: Owner): string {
    match owner
    case Enumerated(k) => Key(k)
    case Token(provider) => AccessTokenKey(provider)
  }

  predicate OwnerOk(owner: Owner) {
    owner.Enumerated? ==> WellFormed(owner.key)
  }

  /** Two owners share a string only when they are the same cache key or the same token provider. */
  lemma {:induction false} OwnersApart(a: Owner, b: Owner)
    requires OwnerOk(a) && OwnerOk(b) && OwnedKey(a) == OwnedKey(b)
    ensures a.Enumerated? == b.Enumerated?
    ensures a.Enumerated? ==> Erase(a.key) == Erase(b.key)
    ensures a.Token? ==> a == b
  {
    match (a, b)
    case (Enumerated(j), Enumerated(k)) => KeyInjective(j, k);
    case (Token(p), Token(q)) => AccessTokenKeyInjective(p, q);
    case (Token(p), Enumerated(k)) => AccessTokenKeyApart(p, k);
    case (Enumerated(j), Token(q)) => AccessTokenKeyApart(q, j);
  }
}
