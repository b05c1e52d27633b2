/** Swap detection from balance changes (core/crates/chain_primitives/src/balance_diff.rs). */
module BalanceDiff {
  import opened Common

  datatype Diff<A> = Diff(asset: A, amount: int)

  datatype Swap<A> = Swap(fromAsset: A, fromValue: nat, toAsset: A, toValue: nat, provider: Option<string>)

  /** The change without the fee, when the asset is the native one and the change covers the fee. */
  function ActualValue<A(==)>(diff: Diff<A>, fee: nat, native: A): nat {
    var magnitude := Magnitude(diff.amount);
    if diff.asset == native && magnitude >= fee then magnitude - fee else magnitude
  }

  function NonZero<A>(diffs: seq<Diff<A>>): seq<Diff<A>> {
    if diffs == [] then []
    else if diffs[0].amount != 0 then [diffs[0]] + NonZero(diffs[1..])
    else NonZero(diffs[1..])
  }

  function MapSwap<A(==)>(diffs: seq<Diff<A>>, fee: nat, native: A, provider: Option<string>): Option<Swap<A>> {
    var changes := NonZero(diffs);
    if |changes| != 2 then None else
    var first, second := changes[0], changes[1];
    if (first.amount > 0) == (second.amount > 0) then None else
    var sent, received := if first.amount < 0 then first else second, if first.amount < 0 then second else first;
    var fromValue := ActualValue(sent, fee, native);
    var toValue := ActualValue(received, fee, native);
    if fromValue == 0 then None
    else Some(Swap(sent.asset, fromValue, received.asset, toValue, provider))
  }

  /** The diffs that are not zero, as an unordered collection. */
  ghost function Changes<A>(diffs: seq<Diff<A>>): multiset<Diff<A>> {
    multiset(NonZero(diffs))
  }

  /** Dropping zero entries keeps every other entry as often as it occurs. */
  lemma {:induction false} ChangesCount<A>(diffs: seq<Diff<A>>, d: Diff<A>)
    ensures Changes(diffs)[d] == if d.amount == 0 then 0 else multiset(diffs)[d]
  {
    if diffs != [] {
      ChangesCount(diffs[1..], d);
      assert diffs == [diffs[0]] + diffs[1..];
    }
  }

  lemma {:induction false} PairIsOrdered<A>(changes: seq<Diff<A>>, a: Diff<A>, b: Diff<A>)
    requires multiset(changes) == multiset{a, b}
    ensures changes == [a, b] || changes == [b, a]
  {
    assert |multiset(changes)| == 2;
    assert changes == [changes[0], changes[1]];
    assert multiset(changes) == multiset{changes[0], changes[1]};
    assert changes[0] in multiset{a, b} && changes[1] in multiset{a, b};
    if changes[0] == a {
      assert multiset{changes[1]} == multiset(changes) - multiset{a} == multiset{b};
      assert changes[1] in multiset{b};
    } else {
      assert multiset{changes[1]} == multiset(changes) - multiset{b} == multiset{a};
      assert changes[1] in multiset{a};
    }
  }

  /** One loss, one gain, and a loss that is not only the fee. */
  ghost predicate IsSwap<A>(diffs: seq<Diff<A>>, sent: Diff<A>, received: Diff<A>, fee: nat, native: A) {
    && Changes(diffs) == multiset{sent, received}
    && sent.amount < 0 < received.amount
    && !(sent.asset == native && fee == -sent.amount)
  }

  lemma {:induction false} SwapOf<A>(
    diffs: seq<Diff<A>>, sent: Diff<A>, received: Diff<A>, fee: nat, native: A, provider: Option<string>)
    requires IsSwap(diffs, sent, received, fee, native)
    ensures MapSwap(diffs, fee, native, provider) ==
      Some(Swap(sent.asset, ActualValue(sent, fee, native),
                received.asset, ActualValue(received, fee, native), provider))
  {
    PairIsOrdered(NonZero(diffs), sent, received);
  }

  lemma {:induction false} NonZeroAll<A>(diffs: seq<Diff<A>>)
    ensures forall i | 0 <= i < |NonZero(diffs)| :: NonZero(diffs)[i].amount != 0
  {
    if diffs != [] {
      NonZeroAll(diffs[1..]);
    }
  }

  lemma {:induction false} DetectedPair<A>(diffs: seq<Diff<A>>, fee: nat, native: A, provider: Option<string>)
    returns (sent: Diff<A>, received: Diff<A>)
    requires MapSwap(diffs, fee, native, provider).Some?
    ensures IsSwap(diffs, sent, received, fee, native)
  {
    NonZeroAll(diffs);
    var changes := NonZero(diffs);
    assert changes == [changes[0], changes[1]];
    if changes[0].amount < 0 {
      sent, received := changes[0], changes[1];
    } else {
      sent, received := changes[1], changes[0];
    }
  }

  /** A swap is reported exactly for an unordered pair of one loss and one gain whose loss exceeds a bare fee. */
  lemma {:induction false} DetectedExactly<A>(diffs: seq<Diff<A>>, fee: nat, native: A, provider: Option<string>)
    ensures MapSwap(diffs, fee, native, provider).Some? <==>
      exists sent, received :: IsSwap(diffs, sent, received, fee, native)
  {
    if sent, received :| IsSwap(diffs, sent, received, fee, native) {
      SwapOf(diffs, sent, received, fee, native, provider);
    }
    if MapSwap(diffs, fee, native, provider).Some? {
      var sent, received := DetectedPair(diffs, fee, native, provider);
    }
  }

  lemma {:induction false} SameCounts<T>(xs: seq<T>, ys: seq<T>)
    requires forall x: T :: multiset(xs)[x] == multiset(ys)[x]
    ensures multiset(xs) == multiset(ys)
  {
  }

  /** Only the unordered collection of non-zero diffs matters. */
  lemma {:induction false} OrderAndZerosIgnored<A>(
    a: seq<Diff<A>>, b: seq<Diff<A>>, fee: nat, native: A, provider: Option<string>)
    requires forall d: Diff<A> | d.amount != 0 :: multiset(a)[d] == multiset(b)[d]
    ensures MapSwap(a, fee, native, provider) == MapSwap(b, fee, native, provider)
  {
    forall d: Diff<A> ensures multiset(NonZero(a))[d] == multiset(NonZero(b))[d] {
      ChangesCount(a, d);
      ChangesCount(b, d);
      assert d.amount != 0 ==> multiset(a)[d] == multiset(b)[d];
    }
    SameCounts(NonZero(a), NonZero(b));
    DetectedExactly(a, fee, native, provider);
    DetectedExactly(b, fee, native, provider);
    if sent, received :| IsSwap(a, sent, received, fee, native) {
      assert IsSwap(b, sent, received, fee, native);
      SwapOf(a, sent, received, fee, native, provider);
      SwapOf(b, sent, received, fee, native, provider);
    } else if sent, received :| IsSwap(b, sent, received, fee, native) {
      assert IsSwap(a, sent, received, fee, native);
    }
  }

  /** What left the wallet is the reported value plus the fee, or the value alone when no fee is taken from it. */
  lemma {:induction false} SentValueConserved<A>(diffs: seq<Diff<A>>, fee: nat, native: A, provider: Option<string>)
    requires MapSwap(diffs, fee, native, provider).Some?
    ensures var swap := MapSwap(diffs, fee, native, provider).value;
      exists sent, received :: IsSwap(diffs, sent, received, fee, native)
        && swap.fromAsset == sent.asset && swap.toAsset == received.asset && swap.provider == provider
        && -sent.amount == swap.fromValue + (if sent.asset == native && -sent.amount >= fee then fee else 0)
        && received.amount == swap.toValue + (if received.asset == native && received.amount >= fee then fee else 0)
        && swap.fromValue > 0
  {
    DetectedExactly(diffs, fee, native, provider);
    var sent, received :| IsSwap(diffs, sent, received, fee, native);
    SwapOf(diffs, sent, received, fee, native, provider);
  }
}
