/**
 Single-use nonces (core/crates/gem_auth/src/client.rs) and the once-per-TTL gate
 (`can_process_now`), over every interleaving of clients sharing the store.
 */
module SingleUse {
  import opened Common
  import opened Text
  import opened Store
  import opened CacheKeys

  // ---------------------------------------------------------------- nonces

  /** A client's step: issue or consume a nonce, or any command on another kind of key of the store. */
  datatype Action<V> =
    | Issue(device: string, nonce: string, value: V)
    | Consume(device: string, nonce: string)
    | Elsewhere(owner: Owner, cmd: Command<V>)

  datatype Move<V> = Move(at: Time, action: Action<V>)
  type Moves<V> = seq<Move<V>>

  predicate Legal<V>(a: Action<V>) {
    match a
    case Issue(device, _, _) => Lacks(device, ':')
    case Consume(device, _) => Lacks(device, ':')
    case Elsewhere(owner, cmd) =>
      OwnerOk(owner) && cmd.key == OwnedKey(owner) && !(owner.Enumerated? && owner.key.AuthNonce?)
  }

  const NONCE_TTL := 5 * MINUTE

  function CommandOf<V>(a: Action<V>): Command<V> {
    match a
    case Issue(device, nonce, value) => SetEx(Key(AuthNonce(device, nonce)), value, NONCE_TTL)
    case Consume(device, nonce) => GetDel(Key(AuthNonce(device, nonce)))
    case Elsewhere(_, cmd) => cmd
  }

  function TraceOf<V>(ms: Moves<V>): Trace<V> {
    seq(|ms|, i requires 0 <= i < |ms| => Event(ms[i].at, CommandOf(ms[i].action)))
  }

  predicate LegalRun<V>(ms: Moves<V>) {
    && (forall i | 0 <= i < |ms| :: Legal(ms[i].action))
    && (forall i, j | 0 <= i <= j < |ms| :: ms[i].at <= ms[j].at)
  }

  predicate Concerns<V>(a: Action<V>, device: string, nonce: string) {
    !a.Elsewhere? && a.device == device && a.nonce == nonce
  }

  /** Only a nonce's own device and nonce text reach its key. */
  lemma {:induction false} OnlyOwnMovesTouch<V>(a: Action<V>, device: string, nonce: string)
    requires Legal(a) && Lacks(device, ':')
    ensures CommandOf(a).key == Key(AuthNonce(device, nonce)) <==> Concerns(a, device, nonce)
  {
    var own := Enumerated(AuthNonce(device, nonce));
    var other := match a
      case Issue(d, n, _) => Enumerated(AuthNonce(d, n))
      case Consume(d, n) => Enumerated(AuthNonce(d, n))
      case Elsewhere(owner, _) => owner;
    assert CommandOf(a).key == OwnedKey(other);
    if OwnedKey(other) == OwnedKey(own) {
      OwnersApart(other, own);
    }
  }

  /** Move `i` issued the nonce with this value and nothing has concerned it since. */
  ghost predicate Outstanding<V>(ms: Moves<V>, n: nat, i: nat, device: string, nonce: string, value: V) {
    && i < n <= |ms|
    && ms[i].action == Issue(device, nonce, value)
    && forall m | i < m < n :: !Concerns(ms[m].action, device, nonce)
  }

  function Stored<V>(value: V, issuedAt: Time): Entry<V> {
    Entry(Data(value), Some(issuedAt + NONCE_TTL * SECOND))
  }

  /** The trace as one nonce's key sees it. */
  ghost predicate Mirrors<V>(ms: Moves<V>, tr: Trace<V>, key: string, device: string, nonce: string) {
    && |tr| == |ms|
    && forall m | 0 <= m < |ms| ::
         && tr[m].at == ms[m].at
         && (Touches(tr, m, key) <==> Concerns(ms[m].action, device, nonce))
         && (Concerns(ms[m].action, device, nonce) ==>
               tr[m].cmd == if ms[m].action.Issue? then SetEx(key, ms[m].action.value, NONCE_TTL) else GetDel(key))
  }

  lemma {:induction false} TraceMirrors<V>(ms: Moves<V>, device: string, nonce: string)
    requires LegalRun(ms) && Lacks(device, ':')
    ensures Mirrors(ms, TraceOf(ms), Key(AuthNonce(device, nonce)), device, nonce)
  {
    forall m | 0 <= m < |ms| {
      OnlyOwnMovesTouch(ms[m].action, device, nonce);
    }
  }

  lemma {:induction false} OutstandingIsStored<V>(
    ms: Moves<V>, tr: Trace<V>, key: string, n: nat, i: nat, device: string, nonce: string, value: V)
    requires Mirrors(ms, tr, key, device, nonce)
    requires Outstanding(ms, n, i, device, nonce, value)
    ensures At(tr, n, key) == Some(Stored(value, ms[i].at))
  {
    assert Concerns(ms[i].action, device, nonce);
    Untouched(tr, i + 1, n, key);
  }

  lemma {:induction false} StoredIsOutstanding<V>(
    ms: Moves<V>, tr: Trace<V>, key: string, n: nat, device: string, nonce: string)
    returns (i: nat, value: V)
    requires Mirrors(ms, tr, key, device, nonce) && n <= |ms|
    requires At(tr, n, key).Some?
    ensures Outstanding(ms, n, i, device, nonce, value)
    decreases n
  {
    var last := ms[n - 1].action;
    if Concerns(last, device, nonce) {
      assert tr[n - 1].cmd != GetDel(key);
      assert last.Issue?;
      i, value := n - 1, last.value;
    } else {
      assert !Touches(tr, n - 1, key);
      i, value := StoredIsOutstanding(ms, tr, key, n - 1, device, nonce);
    }
  }

  /** Some issue of this nonce and value is outstanding at move `j` and younger than five minutes. */
  ghost predicate Redeemable<V>(ms: Moves<V>, j: nat, device: string, nonce: string, value: V)
    requires j < |ms|
  {
    exists i: nat ::
      && Outstanding(ms, j, i, device, nonce, value)
      && ms[j].at < ms[i].at + NONCE_TTL * SECOND
  }

  lemma {:induction false} ConsumeMirrored<V>(
    ms: Moves<V>, tr: Trace<V>, key: string, j: nat, device: string, nonce: string, value: V)
    requires Mirrors(ms, tr, key, device, nonce) && j < |ms| && ms[j].action == Consume(device, nonce)
    ensures ReplyAt(tr, j) == Bulk(Data(value)) <==> Redeemable(ms, j, device, nonce, value)
  {
    assert tr[j] == Event(ms[j].at, GetDel(key));
    if ReplyAt(tr, j) == Bulk(Data(value)) {
      var i, v := StoredIsOutstanding(ms, tr, key, j, device, nonce);
      OutstandingIsStored(ms, tr, key, j, i, device, nonce, v);
    }
    if i: nat :| Outstanding(ms, j, i, device, nonce, value) && ms[j].at < ms[i].at + NONCE_TTL * SECOND {
      OutstandingIsStored(ms, tr, key, j, i, device, nonce, value);
    }
  }

  /**
   A consume succeeds with a value exactly when the same device's issue of that nonce, with that
   value, is less than five minutes old and no step on the nonce came between.
   */
  lemma {:induction false} ConsumeExactly<V>(ms: Moves<V>, j: nat, value: V)
    requires LegalRun(ms) && j < |ms| && ms[j].action.Consume?
    ensures ReplyAt(TraceOf(ms), j) == Bulk(Data(value)) <==>
            Redeemable(ms, j, ms[j].action.device, ms[j].action.nonce, value)
  {
    var device, nonce := ms[j].action.device, ms[j].action.nonce;
    TraceMirrors(ms, device, nonce);
    ConsumeMirrored(ms, TraceOf(ms), Key(AuthNonce(device, nonce)), j, device, nonce, value);
  }

  predicate FreshNonces<V>(ms: Moves<V>) {
    forall i, j | 0 <= i < j < |ms| && ms[i].action.Issue? && ms[j].action.Issue? ::
      ms[i].action.nonce != ms[j].action.nonce
  }

  lemma {:induction false} OneSourceOneConsume<V>(ms: Moves<V>, j: nat, k: nat, device: string, v: V, w: V)
    requires FreshNonces(ms) && j < k < |ms|
    requires ms[j].action.Consume?
    requires Redeemable(ms, j, ms[j].action.device, ms[j].action.nonce, v)
    ensures !Redeemable(ms, k, device, ms[j].action.nonce, w)
  {
  }

  /** With fresh nonce texts, no nonce is ever consumed twice, under any device. */
  lemma {:induction false} ConsumedAtMostOnce<V>(ms: Moves<V>, j: nat, k: nat, v: V, w: V)
    requires LegalRun(ms) && FreshNonces(ms) && j < k < |ms|
    requires ms[j].action.Consume? && ms[k].action.Consume? && ms[j].action.nonce == ms[k].action.nonce
    requires ReplyAt(TraceOf(ms), j) == Bulk(Data(v))
    ensures ReplyAt(TraceOf(ms), k) != Bulk(Data(w))
  {
    ConsumeExactly(ms, j, v);
    ConsumeExactly(ms, k, w);
    OneSourceOneConsume(ms, j, k, ms[k].action.device, v, w);
  }

  /** A nonce can be redeemed: issued and consumed within five minutes, with nothing else at all. */
  lemma {:induction false} NonceRedeemed<V>(device: string, nonce: string, value: V, issued: Time, consumed: Time)
    requires Lacks(device, ':') && issued <= consumed < issued + 300_000
    ensures var ms := [Move(issued, Issue(device, nonce, value)), Move(consumed, Consume(device, nonce))];
      LegalRun(ms) && FreshNonces(ms) && ReplyAt(TraceOf(ms), 1) == Bulk(Data(value))
  {
    var ms := [Move(issued, Issue(device, nonce, value)), Move(consumed, Consume(device, nonce))];
    assert Outstanding(ms, 1, 0, device, nonce, value);
    ConsumeExactly(ms, 1, value);
  }

  /** `AuthClient`: each method is the command of one move. The nonce text is drawn by the caller. */
  class AuthClient<V(==)> {
    const cacher: CacherClient<V>

    constructor (cacher: CacherClient<V>)
      ensures this.cacher == cacher
    {
      this.cacher := cacher;
    }

    /** `get_nonce`: the nonce can be read for exactly its TTL, until consumed. */
    method GetNonce(now: Time, device: string, nonce: string, value: V)
      modifies cacher
      ensures cacher.entries == Exec(old(cacher.entries), now, CommandOf(Issue(device, nonce, value))).0
      ensures forall later | now <= later ::
        Lookup(cacher.entries, later, Key(AuthNonce(device, nonce)))
        == if later < now + NONCE_TTL * SECOND then Some(Stored(value, now)) else None
    {
      var key := Key(AuthNonce(device, nonce));
      var _ := cacher.Send(now, SetEx(key, value, Ttl(AuthNonce(device, nonce))));
    }

    /** `consume_auth_nonce`: what is returned is gone. */
    method ConsumeAuthNonce(now: Time, device: string, nonce: string) returns (r: Option<Value<V>>)
      modifies cacher
      ensures cacher.entries == Exec(old(cacher.entries), now, CommandOf<V>(Consume(device, nonce))).0
      ensures r.Some? <==> old(Lookup(cacher.entries, now, Key(AuthNonce(device, nonce)))).Some?
      ensures r.Some? ==> r.value == old(Lookup(cacher.entries, now, Key(AuthNonce(device, nonce)))).value.value
      ensures forall later :: Lookup(cacher.entries, later, Key(AuthNonce(device, nonce))).None?
    {
      var key := Key(AuthNonce(device, nonce));
      r := cacher.GetAndDeleteValue(now, key);
    }
  }

  // ---------------------------------------------------------------- the gate

  /** The key is only ever used as a gate with one positive TTL. */
  predicate GateOnly<V>(tr: Trace<V>, key: string, ttl: nat) {
    && ttl > 0
    && Ordered(tr)
    && forall i | 0 <= i < |tr| && Touches(tr, i, key) :: tr[i].cmd == SetNxEx(key, ttl)
  }

  predicate Passed<V>(tr: Trace<V>, i: nat, key: string)
    requires i < |tr|
  {
    Touches(tr, i, key) && ReplyAt(tr, i).Done?
  }

  /** Event `i` is the last pass among the first `n`, and the entry is the one it made. */
  ghost predicate LatestPass<V>(tr: Trace<V>, n: nat, key: string, ttl: nat, i: nat)
    requires n <= |tr|
  {
    && i < n && Passed(tr, i, key)
    && At(tr, n, key) == Some(Entry(Count(1), Some(tr[i].at + ttl * SECOND)))
    && forall m | i < m < n :: !Passed(tr, m, key)
  }

  /** The entry at a gate key belongs to the latest pass. */
  lemma {:induction false} GateEntry<V>(tr: Trace<V>, n: nat, key: string, ttl: nat)
    requires GateOnly(tr, key, ttl) && n <= |tr|
    ensures At(tr, n, key).None? ==> forall i | 0 <= i < n :: !Passed(tr, i, key)
    ensures At(tr, n, key).Some? ==> exists i: nat :: LatestPass(tr, n, key, ttl, i)
    decreases n
  {
    if n > 0 {
      GateEntry(tr, n - 1, key, ttl);
      var last := n - 1;
      if Passed(tr, last, key) {
        assert tr[last].cmd == SetNxEx(key, ttl);
        assert LatestPass(tr, n, key, ttl, last);
      } else {
        GateKept(tr, last, key, ttl);
        if i: nat :| LatestPass(tr, last, key, ttl, i) {
          assert LatestPass(tr, n, key, ttl, i);
        }
      }
    }
  }

  lemma {:induction false} GateKept<V>(tr: Trace<V>, i: nat, key: string, ttl: nat)
    requires GateOnly(tr, key, ttl) && i < |tr| && !Passed(tr, i, key)
    ensures At(tr, i + 1, key) == At(tr, i, key)
  {
    if Touches(tr, i, key) {
      assert tr[i].cmd == SetNxEx(key, ttl);
    } else {
      Untouched(tr, i, i + 1, key);
    }
  }

  /** A gate opens exactly when every earlier opening is at least the TTL in the past. */
  lemma {:induction false} GateExactly<V>(tr: Trace<V>, j: nat, key: string, ttl: nat)
    requires GateOnly(tr, key, ttl) && j < |tr| && Touches(tr, j, key)
    ensures Passed(tr, j, key) <==>
      forall i | 0 <= i < j && Passed(tr, i, key) :: tr[i].at + ttl * SECOND <= tr[j].at
  {
    GateEntry(tr, j, key, ttl);
    assert tr[j].cmd == SetNxEx(key, ttl);
    if i: nat :| LatestPass(tr, j, key, ttl, i) {
      assert forall m | 0 <= m < j && Passed(tr, m, key) :: m <= i;
    }
  }
}
