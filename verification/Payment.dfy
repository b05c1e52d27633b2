/** Where a scanned payment request leads (core/gemstone/src/payment.rs). */
module Payment {
  import opened Common
  import opened Lists
  import opened Text

  type Chain = string

  datatype ChainType =
    | Ethereum | Bitcoin | Solana | Cosmos | Ton | Tron | Aptos | Sui
    | Xrp | Near | Stellar | Algorand | Polkadot | Cardano | HyperCore

  datatype AssetId = AssetId(chain: Chain, token: Option<string>)

  datatype WalletAsset = WalletAsset(id: AssetId, decimals: int)

  datatype Amount = ExactValue(text: string) | AtomicValue(value: nat)

  datatype Request = Request(
    address: string,
    amount: Option<Amount>,
    memo: Option<string>,
    references: Option<seq<string>>,
    assetId: Option<AssetId>)

  datatype Recipient = Recipient(address: string, memo: Option<string>, references: seq<string>)

  datatype Transfer = Transfer(
    assetId: AssetId,
    address: string,
    value: nat,
    memo: Option<string>,
    references: seq<string>)

  datatype Destination =
    | Confirm(transfer: Transfer)
    | Review(assetId: AssetId, recipient: Recipient, amount: Option<string>)
    | SelectAsset(recipient: Recipient, amount: Option<string>, chains: seq<Chain>)
    | Unsupported

  /** The chain table, the per-chain address validators, the EVM checksum and the decimal reader. */
  datatype Rules = Rules(
    chainType: Chain -> ChainType,
    validate: (string, Chain) -> bool,
    evmChecksum: string -> Option<string>,
    decimal: string -> Option<real>)

  /** An EVM checksum is a trimmed address that is its own checksum. */
  ghost predicate Lawful(rules: Rules) {
    forall s: string | rules.evmChecksum(s).Some? ::
      var t := rules.evmChecksum(s).value;
      rules.evmChecksum(t) == Some(t) && Trim(t) == t
  }

  // ---------------------------------------------------------------- addresses

  /** White space in the sense of Unicode. */
  predicate IsSpace(c: char) {
    || '\U{9}' <= c <= '\U{D}' || c == ' ' || c == '\U{85}' || c == '\U{A0}' || c == '\U{1680}'
    || '\U{2000}' <= c <= '\U{200A}' || c == '\U{2028}' || c == '\U{2029}' || c == '\U{202F}'
    || c == '\U{205F}' || c == '\U{3000}'
  }

  predicate Blank(s: string) {
    forall i | 0 <= i < |s| :: IsSpace(s[i])
  }

  function TrimStart(s: string): (r: string)
    ensures r != [] ==> !IsSpace(r[0])
    ensures r == [] || r == s || |r| < |s|
  {
    if s != [] && IsSpace(s[0]) then TrimStart(s[1..]) else s
  }

  function TrimEnd(s: string): (r: string) {
    if s != [] && IsSpace(s[|s| - 1]) then TrimEnd(s[..|s| - 1]) else s
  }

  function Trim(s: string): string {
    TrimEnd(TrimStart(s))
  }

  lemma {:induction false} TrimStartPadding(pad: string, s: string)
    requires Blank(pad)
    ensures TrimStart(pad + s) == TrimStart(s)
  {
    if pad == [] {
      assert pad + s == s;
    } else {
      assert (pad + s)[1..] == pad[1..] + s;
      TrimStartPadding(pad[1..], s);
    }
  }

  lemma {:induction false} TrimEndPadding(s: string, pad: string)
    requires Blank(pad)
    ensures TrimEnd(s + pad) == TrimEnd(s)
  {
    if pad == [] {
      assert s + pad == s;
    } else {
      var n := |pad| - 1;
      assert (s + pad)[..|s + pad| - 1] == s + pad[..n];
      TrimEndPadding(s, pad[..n]);
    }
  }

  lemma {:induction false} TrimStartBlank(s: string)
    requires Blank(s)
    ensures TrimStart(s) == []
  {
    if s != [] {
      TrimStartBlank(s[1..]);
    }
  }

  lemma {:induction false} TrimStartAppend(s: string, pad: string)
    requires !Blank(s)
    ensures TrimStart(s + pad) == TrimStart(s) + pad
  {
    if IsSpace(s[0]) {
      assert (s + pad)[1..] == s[1..] + pad;
      TrimStartAppend(s[1..], pad);
    }
  }

  /** White space around an address is dropped. */
  lemma {:induction false} TrimPadding(left: string, s: string, right: string)
    requires Blank(left) && Blank(right)
    ensures Trim(left + s + right) == Trim(s)
  {
    assert left + s + right == left + (s + right);
    TrimStartPadding(left, s + right);
    if Blank(s) {
      TrimStartBlank(s);
      TrimStartBlank(s + right);
    } else {
      TrimStartAppend(s, right);
      TrimEndPadding(TrimStart(s), right);
    }
  }

  lemma {:induction false} TrimEndPrefix(s: string)
    ensures TrimEnd(s) <= s
    ensures TrimEnd(s) != [] ==> !IsSpace(TrimEnd(s)[|TrimEnd(s)| - 1])
    ensures TrimEnd(TrimEnd(s)) == TrimEnd(s)
  {
    if s != [] && IsSpace(s[|s| - 1]) {
      TrimEndPrefix(s[..|s| - 1]);
    }
  }

  lemma {:induction false} TrimIdempotent(s: string)
    ensures Trim(Trim(s)) == Trim(s)
  {
    TrimEndPrefix(TrimStart(s));
    var t := Trim(s);
    assert t != [] ==> t[0] == TrimStart(s)[0];
    assert TrimStart(t) == t;
  }

  function Checksum(rules: Rules, address: string, chain: Chain): string {
    var trimmed := Trim(address);
    match rules.chainType(chain)
    case Ethereum | HyperCore => (match rules.evmChecksum(trimmed) case Some(a) => a case None => trimmed)
    case _ => trimmed
  }

  lemma {:induction false} ChecksumIdempotent(rules: Rules, address: string, chain: Chain)
    requires Lawful(rules)
    ensures Checksum(rules, Checksum(rules, address, chain), chain) == Checksum(rules, address, chain)
  {
    TrimIdempotent(address);
    var r := rules.evmChecksum(Trim(address));
    assert r.Some? ==> rules.evmChecksum(r.value) == r && Trim(r.value) == r.value;
  }

  // ---------------------------------------------------------------- routing

  function Pow10(n: nat): (r: nat)
    ensures r > 0
  {
    if n == 0 then 1 else 10 * Pow10(n - 1)
  }

  /** A decimal amount in atomic units, refused when it is negative or finer than one unit. */
  function ExactUnits(amount: real, decimals: nat): Option<nat> {
    var scaled := amount * (Pow10(decimals) as real);
    if scaled.Floor as real != scaled || scaled.Floor < 0 then None else Some(scaled.Floor)
  }

  function TransferValue(rules: Rules, request: Request, decimals: int): Option<nat> {
    match request.amount
    case None => None
    case Some(AtomicValue(value)) => Some(value)
    case Some(ExactValue(text)) =>
      if decimals < 0 then None else
      match rules.decimal(text)
      case None => None
      case Some(amount) => ExactUnits(amount, decimals)
  }

  predicate MemoChain(chainType: ChainType) {
    chainType in {Cosmos, Ton, Xrp, Stellar, Algorand}
  }

  predicate RequiresMemo(rules: Rules, chain: Chain, request: Request) {
    MemoChain(rules.chainType(chain)) && (request.memo.None? || request.memo.value == [])
  }

  function References(request: Request): seq<string> {
    match request.references case Some(refs) => refs case None => []
  }

  function ExactAmount(request: Request): Option<string> {
    match request.amount case Some(ExactValue(text)) => Some(text) case _ => None
  }

  function ConfirmTransfer(rules: Rules, asset: WalletAsset, request: Request): Option<Transfer> {
    var address := Checksum(rules, request.address, asset.id.chain);
    if !rules.validate(address, asset.id.chain) then None else
    match TransferValue(rules, request, asset.decimals)
    case None => None
    case Some(value) => Some(Transfer(asset.id, address, value, request.memo, References(request)))
  }

  function ReviewDestination(rules: Rules, asset: WalletAsset, request: Request): Destination {
    var address := Checksum(rules, request.address, asset.id.chain);
    Review(asset.id, Recipient(address, request.memo, References(request)), ExactAmount(request))
  }

  function TransferDestination(rules: Rules, asset: WalletAsset, request: Request): Destination {
    if RequiresMemo(rules, asset.id.chain, request) then ReviewDestination(rules, asset, request) else
    match ConfirmTransfer(rules, asset, request)
    case Some(transfer) => Confirm(transfer)
    case None => ReviewDestination(rules, asset, request)
  }

  predicate Mismatched(request: Request, asset: WalletAsset) {
    request.assetId.Some? && request.assetId.value != asset.id
  }

  function PaymentTransferDestination(rules: Rules, request: Request, asset: WalletAsset): Destination {
    if Mismatched(request, asset) then Unsupported else TransferDestination(rules, asset, request)
  }

  /** The requested asset, or without one any asset whose chain accepts the address as written. */
  predicate CanPay(rules: Rules, request: Request, asset: WalletAsset) {
    match request.assetId
    case Some(id) => asset.id == id
    case None => rules.validate(request.address, asset.id.chain)
  }

  function Payable(rules: Rules, request: Request, assets: seq<WalletAsset>): (r: seq<WalletAsset>)
    ensures forall a :: a in r <==> a in assets && CanPay(rules, request, a)
  {
    if assets == [] then []
    else if CanPay(rules, request, assets[0]) then [assets[0]] + Payable(rules, request, assets[1..])
    else Payable(rules, request, assets[1..])
  }

  function Chains(assets: seq<WalletAsset>): seq<Chain> {
    seq(|assets|, i requires 0 <= i < |assets| => assets[i].id.chain)
  }

  /** The specification of `payment_destination`. */
  function Route(rules: Rules, request: Request, assets: seq<WalletAsset>): Destination {
    var payable := Payable(rules, request, assets);
    if payable == [] then Unsupported
    else if |payable| == 1 then TransferDestination(rules, payable[0], request)
    else SelectAsset(Recipient(request.address, request.memo, References(request)),
                     ExactAmount(request), Dedup(Chains(payable)))
  }

  /** `payment_destination`, with its loop over the payable assets. */
  method PaymentDestination(rules: Rules, request: Request, assets: seq<WalletAsset>) returns (r: Destination)
    ensures r == Route(rules, request, assets)
  {
    var payable := Payable(rules, request, assets);
    if payable == [] {
      return Unsupported;
    }
    if |payable| == 1 {
      return TransferDestination(rules, payable[0], request);
    }
    var chains: seq<Chain> := [];
    for i := 0 to |payable|
      invariant chains == Dedup(Chains(payable[..i]))
    {
      var chain := payable[i].id.chain;
      assert Chains(payable[..i + 1]) == Chains(payable[..i]) + [chain];
      DedupSnoc(Chains(payable[..i]), chain);
      if chain !in chains {
        chains := chains + [chain];
      }
    }
    assert payable[..|payable|] == payable;
    r := SelectAsset(Recipient(request.address, request.memo, References(request)), ExactAmount(request), chains);
  }

  // ---------------------------------------------------------------- laws

  /** The value is the one requested: the atomic one, or the decimal one scaled without rounding. */
  ghost predicate PaysAmount(rules: Rules, amount: Amount, decimals: int, value: nat) {
    match amount
    case AtomicValue(v) => value == v
    case ExactValue(text) =>
      && decimals >= 0 && rules.decimal(text).Some?
      && rules.decimal(text).value * (Pow10(decimals) as real) == value as real
  }

  lemma {:induction false} WholeFloor(x: real, n: int)
    requires x == n as real
    ensures x.Floor == n
  {
  }

  lemma {:induction false} ValueExactly(rules: Rules, request: Request, decimals: int, value: nat)
    ensures TransferValue(rules, request, decimals) == Some(value) <==>
      request.amount.Some? && PaysAmount(rules, request.amount.value, decimals, value)
  {
    if request.amount.Some? && request.amount.value.ExactValue? {
      var text := request.amount.value.text;
      if PaysAmount(rules, ExactValue(text), decimals, value) {
        WholeFloor(rules.decimal(text).value * (Pow10(decimals) as real), value);
      }
    }
  }

  /** The transfer a request asks for on one asset, said without the routing code. */
  ghost predicate Requested(rules: Rules, request: Request, asset: WalletAsset, t: Transfer) {
    && t.assetId == asset.id
    && !Mismatched(request, asset)
    && t.address == Checksum(rules, request.address, asset.id.chain)
    && rules.validate(t.address, asset.id.chain)
    && request.amount.Some? && PaysAmount(rules, request.amount.value, asset.decimals, t.value)
    && t.memo == request.memo
    && (MemoChain(rules.chainType(asset.id.chain)) ==> t.memo.Some? && t.memo.value != [])
    && t.references == References(request)
  }

  /** Direct routing confirms exactly the requested transfer. */
  lemma {:induction false} DirectConfirmExactly(rules: Rules, request: Request, asset: WalletAsset, t: Transfer)
    ensures PaymentTransferDestination(rules, request, asset) == Confirm(t) <==> Requested(rules, request, asset, t)
  {
    ValueExactly(rules, request, asset.decimals, t.value);
  }

  /** With a single payable asset, routing over the wallet is direct routing on that asset. */
  lemma {:induction false} SinglePayableIsDirect(rules: Rules, request: Request, assets: seq<WalletAsset>)
    requires |Payable(rules, request, assets)| == 1
    ensures var asset := Payable(rules, request, assets)[0];
      Route(rules, request, assets) == PaymentTransferDestination(rules, request, asset)
  {
    assert Payable(rules, request, assets)[0] in Payable(rules, request, assets);
  }

  /** A wallet-wide Confirm is the requested transfer on the only asset that can pay, at a checksummed address. */
  lemma {:induction false} ConfirmSound(rules: Rules, request: Request, assets: seq<WalletAsset>, t: Transfer)
    requires Lawful(rules)
    requires Route(rules, request, assets) == Confirm(t)
    ensures exists asset | asset in assets ::
      && Requested(rules, request, asset, t)
      && (forall other | other in assets && CanPay(rules, request, other) :: other == asset)
    ensures Checksum(rules, t.address, t.assetId.chain) == t.address && rules.validate(t.address, t.assetId.chain)
  {
    var payable := Payable(rules, request, assets);
    var asset := payable[0];
    assert asset in payable;
    SinglePayableIsDirect(rules, request, assets);
    DirectConfirmExactly(rules, request, asset, t);
    forall other | other in assets && CanPay(rules, request, other) ensures other == asset {
      assert other in payable;
    }
    ChecksumIdempotent(rules, request.address, asset.id.chain);
  }

  /** Nothing is unsupported unless no asset can pay; a choice is offered exactly when several entries can. */
  lemma {:induction false} RouteKinds(rules: Rules, request: Request, assets: seq<WalletAsset>)
    ensures Route(rules, request, assets).Unsupported? <==> forall a | a in assets :: !CanPay(rules, request, a)
    ensures Route(rules, request, assets).SelectAsset? <==> |Payable(rules, request, assets)| >= 2
  {
    var payable := Payable(rules, request, assets);
    if payable != [] {
      assert payable[0] in payable;
    } else {
      assert forall a | a in assets :: CanPay(rules, request, a) ==> a in payable;
    }
  }

  /** The offered chains are those of the payable assets, each once, by first appearance. */
  lemma {:induction false} ChoiceInOrder(rules: Rules, request: Request, assets: seq<WalletAsset>)
    requires Route(rules, request, assets).SelectAsset?
    ensures var chains, all := Route(rules, request, assets).chains, Chains(Payable(rules, request, assets));
      && (forall i | 0 <= i < |chains| :: chains[i] in all)
      && (forall i | 0 <= i < |all| :: all[i] in chains)
      && (forall i, j | 0 <= i < j < |chains| :: FirstIndex(all, chains[i], 0) < FirstIndex(all, chains[j], 0))
    ensures Route(rules, request, assets).recipient.address == request.address
  {
    DedupKeepsFirsts(Chains(Payable(rules, request, assets)));
  }

  lemma {:induction false} PayableAppend(rules: Rules, request: Request, a: seq<WalletAsset>, b: seq<WalletAsset>)
    ensures Payable(rules, request, a + b) == Payable(rules, request, a) + Payable(rules, request, b)
  {
    if a == [] {
      assert a + b == b;
    } else {
      assert (a + b)[1..] == a[1..] + b;
      PayableAppend(rules, request, a[1..], b);
    }
  }

  /** Assets that cannot pay do not influence the route, wherever they stand. */
  lemma {:induction false} UnpayableIgnored(
    rules: Rules, request: Request, a: seq<WalletAsset>, extra: WalletAsset, b: seq<WalletAsset>)
    requires !CanPay(rules, request, extra)
    ensures Route(rules, request, a + [extra] + b) == Route(rules, request, a + b)
  {
    PayableAppend(rules, request, a + [extra], b);
    PayableAppend(rules, request, a, [extra]);
    PayableAppend(rules, request, a, b);
    assert Payable(rules, request, [extra]) == Payable(rules, request, [extra][1..]) == [];
    assert Payable(rules, request, a + [extra] + b) == Payable(rules, request, a + b);
  }

  /** Padding around the address never changes a direct route. */
  lemma {:induction false} PaddingIgnored(
    rules: Rules, request: Request, asset: WalletAsset, left: string, right: string)
    requires Blank(left) && Blank(right)
    ensures PaymentTransferDestination(rules, request.(address := left + request.address + right), asset)
         == PaymentTransferDestination(rules, request, asset)
  {
    TrimPadding(left, request.address, right);
  }

  /** What is put up for review keeps everything the request said, at a checksummed address. */
  lemma {:induction false} ReviewInFull(rules: Rules, request: Request, asset: WalletAsset)
    requires PaymentTransferDestination(rules, request, asset).Review?
    ensures var d := PaymentTransferDestination(rules, request, asset);
      && d.assetId == asset.id
      && d.recipient.address == Checksum(rules, request.address, asset.id.chain)
      && d.recipient.memo == request.memo
      && d.recipient.references == (if request.references.Some? then request.references.value else [])
      && d.amount == (match request.amount case Some(ExactValue(text)) => Some(text) case _ => None)
  {
  }

  /** So does a choice of assets, with the address as written. */
  lemma {:induction false} ChoiceInFull(rules: Rules, request: Request, assets: seq<WalletAsset>)
    requires Route(rules, request, assets).SelectAsset?
    ensures var d := Route(rules, request, assets);
      && d.recipient.address == request.address
      && d.recipient.memo == request.memo
      && d.recipient.references == (if request.references.Some? then request.references.value else [])
      && d.amount == (match request.amount case Some(ExactValue(text)) => Some(text) case _ => None)
  {
  }

  /** Direct routing refuses exactly another asset than the requested one; the rest is a Confirm or a Review. */
  lemma {:induction false} DirectKinds(rules: Rules, request: Request, asset: WalletAsset)
    ensures PaymentTransferDestination(rules, request, asset).Unsupported? <==>
      request.assetId.Some? && request.assetId.value != asset.id
    ensures !PaymentTransferDestination(rules, request, asset).SelectAsset?
  {
  }

  /** The chains whose payments need a memo, and no others. */
  lemma {:induction false} MemoChains(chainType: ChainType)
    ensures MemoChain(chainType) <==>
      match chainType
      case Cosmos => true case Ton => true case Xrp => true case Stellar => true case Algorand => true
      case Ethereum => false case Bitcoin => false case Solana => false case Tron => false case Aptos => false
      case Sui => false case Near => false case Polkadot => false case Cardano => false case HyperCore => false
  {
  }

  /** Only EVM chains change the spelling of an address beyond the white space around it. */
  lemma {:induction false} ChecksumInFull(rules: Rules, address: string, chain: Chain)
    ensures var evm := rules.chainType(chain).Ethereum? || rules.chainType(chain).HyperCore?;
      Checksum(rules, address, chain)
      == if evm && rules.evmChecksum(Trim(address)).Some? then rules.evmChecksum(Trim(address)).value else Trim(address)
  {
  }

  /** Trimming drops the white space at both ends and nothing else. */
  lemma {:induction false} TrimExactly(s: string)
    ensures exists left, right :: Blank(left) && Blank(right) && s == left + Trim(s) + right
    ensures Trim(s) != [] ==> !IsSpace(Trim(s)[0]) && !IsSpace(Trim(s)[|Trim(s)| - 1])
  {
    var left := TrimStartCut(s);
    var right := TrimEndCut(TrimStart(s));
    Nested(s, left, TrimStart(s), Trim(s), right);
    TrimmedEnds(s);
  }

  lemma {:induction false} Nested(s: string, left: string, rest: string, middle: string, right: string)
    requires s == left + rest && rest == middle + right
    ensures s == left + middle + right
  {
  }

  lemma {:induction false} TrimmedEnds(s: string)
    ensures Trim(s) != [] ==> !IsSpace(Trim(s)[0]) && !IsSpace(Trim(s)[|Trim(s)| - 1])
  {
    var r := TrimStart(s);
    TrimEndPrefix(r);
    assert TrimEnd(r) != [] ==> TrimEnd(r)[0] == r[0];
  }

  lemma {:induction false} TrimStartCut(s: string) returns (left: string)
    ensures Blank(left) && s == left + TrimStart(s)
  {
    left := [];
    if s != [] && IsSpace(s[0]) {
      var rest := TrimStartCut(s[1..]);
      left := [s[0]] + rest;
    }
  }

  lemma {:induction false} TrimEndCut(s: string) returns (right: string)
    ensures Blank(right) && s == TrimEnd(s) + right
  {
    right := [];
    if s != [] && IsSpace(s[|s| - 1]) {
      var n := |s| - 1;
      var rest := TrimEndCut(s[..n]);
      right := rest + [s[n]];
    }
  }

  /** The characters that Unicode calls white space, by number. */
  lemma {:induction false} SpacesInFull(c: char)
    ensures var n := c as int;
      IsSpace(c) <==>
        || 9 <= n <= 13 || n == 32 || n == 133 || n == 160 || n == 5760 || 8192 <= n <= 8202
        || n == 8232 || n == 8233 || n == 8239 || n == 8287 || n == 12288
  {
  }

  /** Ten to the n, so that eighteen decimals make a quintillion. */
  lemma {:induction false} PowersOfTen(n: nat)
    ensures Pow10(0) == 1 && Pow10(n + 1) == 10 * Pow10(n)
    ensures Pow10(18) == 1_000_000_000_000_000_000
  {
    assert Pow10(6) == 1_000_000;
    assert Pow10(12) == 1_000_000_000_000;
  }
}
