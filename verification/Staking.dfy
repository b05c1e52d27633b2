/**
 BNB staking: share arithmetic (core/crates/gem_bsc/src/encode.rs) and the mapping of on-chain
 delegations to balances and states (core/crates/gem_bsc/src/mapper.rs).
 */
module Staking {
  import opened Common

  // ---------------------------------------------------------------- shares

  function Floor(amount: nat, balance: nat, shares: nat): nat
    requires balance > 0
  {
    amount * shares / balance
  }

  datatype Conversion = Shares(value: nat) | TooWide | DividesByZero

  /** `amount_shares`: an error when the quotient needs more than 256 bits, a panic on a zero balance. */
  function AmountShares(amount: int, balance: nat, shares: nat): Conversion {
    if balance == 0 then DividesByZero else
    var v := Floor(Magnitude(amount), balance, shares);
    if v < TWO_256 then Shares(v) else TooWide
  }

  lemma {:induction false} DivBounds(x: nat, b: nat)
    requires b > 0
    ensures x / b * b <= x < x / b * b + b
  {
  }

  lemma {:induction false} MulMonotone(p: int, q: int, b: nat)
    ensures p <= q ==> p * b <= q * b
  {
  }

  lemma {:induction false} DivLeast(x: nat, b: nat, q: nat)
    requires b > 0 && q * b <= x
    ensures q <= x / b
  {
    DivBounds(x, b);
    assert (x / b + 1) * b == x / b * b + b;
    MulMonotone(x / b + 1, q, b);
  }

  lemma {:induction false} DivMost(x: nat, b: nat, q: nat)
    requires b > 0 && x < (q + 1) * b
    ensures x / b <= q
  {
    DivBounds(x, b);
    MulMonotone(q + 1, x / b, b);
  }

  /** Flooring two parts separately loses at most one share. */
  lemma {:induction false} FloorSplit(x: nat, y: nat, balance: nat, shares: nat)
    requires balance > 0
    ensures Floor(x, balance, shares) + Floor(y, balance, shares) <= Floor(x + y, balance, shares)
    ensures Floor(x + y, balance, shares) <= Floor(x, balance, shares) + Floor(y, balance, shares) + 1
  {
    var p, q := Floor(x, balance, shares), Floor(y, balance, shares);
    DivBounds(x * shares, balance);
    DivBounds(y * shares, balance);
    assert (x + y) * shares == x * shares + y * shares;
    assert (p + q) * balance == p * balance + q * balance;
    assert (p + q + 2) * balance == p * balance + q * balance + 2 * balance;
    DivLeast((x + y) * shares, balance, p + q);
    DivMost((x + y) * shares, balance, p + q + 1);
  }

  lemma {:induction false} FloorAll(balance: nat, shares: nat)
    requires balance > 0
    ensures Floor(balance, balance, shares) == shares
  {
    assert balance * shares == shares * balance;
    assert (shares + 1) * balance == shares * balance + balance;
    DivLeast(balance * shares, balance, shares);
    DivMost(balance * shares, balance, shares);
  }

  lemma {:induction false} FloorMonotone(x: nat, y: nat, balance: nat, shares: nat)
    requires balance > 0 && x <= y
    ensures Floor(x, balance, shares) <= Floor(y, balance, shares)
  {
    FloorSplit(x, y - x, balance, shares);
  }

  function Sum(amounts: seq<nat>): nat {
    if amounts == [] then 0 else amounts[0] + Sum(amounts[1..])
  }

  function SumShares(amounts: seq<nat>, balance: nat, shares: nat): nat
    requires balance > 0
  {
    if amounts == [] then 0 else Floor(amounts[0], balance, shares) + SumShares(amounts[1..], balance, shares)
  }

  lemma {:induction false} SumSharesBounds(amounts: seq<nat>, balance: nat, shares: nat)
    requires balance > 0
    ensures SumShares(amounts, balance, shares) <= Floor(Sum(amounts), balance, shares)
    ensures amounts != [] ==>
      Floor(Sum(amounts), balance, shares) < SumShares(amounts, balance, shares) + |amounts|
  {
    if amounts == [] {
      assert Floor(0, balance, shares) == 0;
    } else {
      SumSharesBounds(amounts[1..], balance, shares);
      FloorSplit(amounts[0], Sum(amounts[1..]), balance, shares);
      if amounts[1..] == [] {
        assert Sum(amounts) == amounts[0];
      }
    }
  }

  /**
   Unstaking a balance in any pieces never takes more shares than the delegation has, gives up
   fewer shares than there are pieces against doing it at once, and takes all of them at once.
   */
  lemma {:induction false} PiecewiseUnstake(amounts: seq<nat>, balance: nat, shares: nat)
    requires balance > 0 && Sum(amounts) <= balance
    ensures SumShares(amounts, balance, shares) <= shares
    ensures amounts != [] ==>
      Floor(Sum(amounts), balance, shares) - SumShares(amounts, balance, shares) < |amounts|
    ensures Floor(balance, balance, shares) == shares
  {
    SumSharesBounds(amounts, balance, shares);
    FloorMonotone(Sum(amounts), balance, balance, shares);
    FloorAll(balance, shares);
  }

  /** The conversion succeeds exactly when amount times shares stays below 2^256 balances. */
  lemma {:induction false} SharesFitExactly(amount: int, balance: nat, shares: nat)
    ensures AmountShares(amount, balance, shares).Shares? <==> Magnitude(amount) * shares < TWO_256 * balance
  {
    var x := Magnitude(amount) * shares;
    if balance > 0 {
      if x < TWO_256 * balance {
        DivMost(x, balance, TWO_256 - 1);
      } else {
        DivLeast(x, balance, TWO_256);
      }
    }
  }

  /** So it never fails for an amount within the balance of a delegation whose shares fit. */
  lemma {:induction false} OwnSharesFit(amount: int, balance: nat, shares: nat)
    requires balance > 0 && Magnitude(amount) <= balance && shares < TWO_256
    ensures AmountShares(amount, balance, shares) == Shares(Floor(Magnitude(amount), balance, shares))
    ensures AmountShares(amount, balance, shares).value <= shares
  {
    FloorMonotone(Magnitude(amount), balance, balance, shares);
    FloorAll(balance, shares);
  }

  // ---------------------------------------------------------------- mapping

  datatype Delegation = Delegation(delegator: string, validator: string, amount: nat, shares: nat)
  datatype Undelegation =
    Undelegation(delegator: string, validator: string, amount: nat, shares: nat, unlockTime: Option<u64>)

  datatype StakeState = Active | Deactivating | AwaitingWithdrawal

  datatype DelegationBase = DelegationBase(
    delegationId: string, validatorId: string, balance: nat, shares: nat,
    completion: Option<int>, state: StakeState)

  const NANOS := 1_000_000_000

  // The timestamps chrono can represent, in seconds.
  const MIN_TIMESTAMP := -8_334_601_228_800
  const MAX_TIMESTAMP := 8_210_266_876_799

  /** `as i64` wraps. */
  function AsSigned(t: u64): int {
    if t < 0x8000_0000_0000_0000 then t else t - TWO_64
  }

  function Completion(unlockTime: Option<u64>): Option<int> {
    if unlockTime.None? then None else
    var t := AsSigned(unlockTime.value);
    if MIN_TIMESTAMP <= t <= MAX_TIMESTAMP then Some(t) else None
  }

  function MapDelegation(d: Delegation): DelegationBase {
    DelegationBase(d.delegator, d.validator, d.amount, d.shares, None, Active)
  }

  /** The clock is in nanoseconds. */
  function MapUndelegation(u: Undelegation, now: int): DelegationBase {
    var completion := Completion(u.unlockTime);
    var state :=
      if completion.Some? && completion.value * NANOS <= now then AwaitingWithdrawal else Deactivating;
    DelegationBase(u.delegator, u.validator, u.amount, u.shares, completion, state)
  }

  function MapDelegations(ds: seq<Delegation>, us: seq<Undelegation>, now: int): seq<DelegationBase> {
    seq(|ds|, i requires 0 <= i < |ds| => MapDelegation(ds[i]))
    + seq(|us|, i requires 0 <= i < |us| => MapUndelegation(us[i], now))
  }

  datatype StakeBalance = StakeBalance(staked: nat, pending: nat)

  function MapStakingBalance(ds: seq<Delegation>, us: seq<Undelegation>): StakeBalance {
    StakeBalance(
      Sum(seq(|ds|, i requires 0 <= i < |ds| => ds[i].amount)),
      Sum(seq(|us|, i requires 0 <= i < |us| => us[i].amount)))
  }

  function BalanceWhere(bs: seq<DelegationBase>, active: bool): nat {
    if bs == [] then 0
    else (if (bs[0].state == Active) == active then bs[0].balance else 0) + BalanceWhere(bs[1..], active)
  }

  lemma {:induction false} BalanceAppend(a: seq<DelegationBase>, b: seq<DelegationBase>, active: bool)
    ensures BalanceWhere(a + b, active) == BalanceWhere(a, active) + BalanceWhere(b, active)
  {
    if a == [] {
      assert a + b == b;
    } else {
      assert (a + b)[1..] == a[1..] + b;
      BalanceAppend(a[1..], b, active);
    }
  }

  /** A list that is all active, or all not, contributes to one side only. */
  lemma {:induction false} BalanceUniform(bs: seq<DelegationBase>, amounts: seq<nat>, active: bool)
    requires |bs| == |amounts|
    requires forall i | 0 <= i < |bs| :: bs[i].balance == amounts[i] && (bs[i].state == Active) == active
    ensures BalanceWhere(bs, active) == Sum(amounts) && BalanceWhere(bs, !active) == 0
  {
    if bs != [] {
      BalanceUniform(bs[1..], amounts[1..], active);
    }
  }

  /** At any clock, active entries add up to the staked total and the others to the pending total. */
  lemma {:induction false} MappedBalancesAgree(ds: seq<Delegation>, us: seq<Undelegation>, now: int)
    ensures BalanceWhere(MapDelegations(ds, us, now), true) == MapStakingBalance(ds, us).staked
    ensures BalanceWhere(MapDelegations(ds, us, now), false) == MapStakingBalance(ds, us).pending
  {
    var a := seq(|ds|, i requires 0 <= i < |ds| => MapDelegation(ds[i]));
    var b := seq(|us|, i requires 0 <= i < |us| => MapUndelegation(us[i], now));
    BalanceUniform(a, seq(|ds|, i requires 0 <= i < |ds| => ds[i].amount), true);
    BalanceUniform(b, seq(|us|, i requires 0 <= i < |us| => us[i].amount), false);
    BalanceAppend(a, b, true);
    BalanceAppend(a, b, false);
  }

  /**
   As time passes entries keep everything but their state, and the only state change is from
   Deactivating to AwaitingWithdrawal, at the completion date.
   */
  lemma {:induction false} StatesOnlyAdvance(ds: seq<Delegation>, us: seq<Undelegation>, now: int, later: int, i: nat)
    requires now <= later && i < |ds| + |us|
    ensures var a, b := MapDelegations(ds, us, now)[i], MapDelegations(ds, us, later)[i];
            && a.(state := b.state) == b
            && (a.state != b.state <==>
                  i >= |ds| && a.completion.Some? && now < a.completion.value * NANOS <= later)
            && (a.state != b.state ==> a.state == Deactivating && b.state == AwaitingWithdrawal)
  {
  }

  /** Every mapped entry keeps the names, amount and shares of what it came from, in order. */
  lemma {:induction false} MappedInFull(ds: seq<Delegation>, us: seq<Undelegation>, now: int, i: nat)
    requires i < |ds| + |us|
    ensures |MapDelegations(ds, us, now)| == |ds| + |us|
    ensures var e := MapDelegations(ds, us, now)[i];
      if i < |ds| then
        && e.delegationId == ds[i].delegator && e.validatorId == ds[i].validator
        && e.balance == ds[i].amount && e.shares == ds[i].shares && e.completion.None? && e.state == Active
      else
        var u := us[i - |ds|];
        && e.delegationId == u.delegator && e.validatorId == u.validator
        && e.balance == u.amount && e.shares == u.shares
        && (e.state == AwaitingWithdrawal <==> e.completion.Some? && e.completion.value * 1_000_000_000 <= now)
        && (e.state == Deactivating <==> e.completion.None? || now < e.completion.value * 1_000_000_000)
  {
  }

  /** The completion date is the unlock time read as a signed 64-bit number, when a date can hold it. */
  lemma {:induction false} CompletionInFull(unlockTime: Option<u64>)
    ensures Completion(unlockTime) ==
      match unlockTime
      case None => None
      case Some(t) =>
        if t <= 8_210_266_876_799 then Some(t)
        else if t >= 0x1_0000_0000_0000_0000 - 8_334_601_228_800 then Some(t - 0x1_0000_0000_0000_0000)
        else None
  {
  }
}
