/**
 The Redis store behind `CacherClient` (core/crates/cacher/src/lib.rs): keys with an optional
 expiry, one atomic command or MULTI pipeline at a time, under a clock in milliseconds.

 A trace is any interleaving of commands from any number of clients. The lemmas here say what a
 trace leaves at one key; the protocol modules build on them.
 */
module Store {
  import opened Common

  type Time = nat

  const SECOND := 1000

  /** Counters are separate from serialized data, which no command increments. */
  datatype Value<V> = Data(data: V) | Count(n: int)
  datatype Entry<V> = Entry(value: Value<V>, expiry: Option<Time>)
  type Entries<V> = map<string, Entry<V>>

  predicate Live<V>(e: Entry<V>, now: Time) {
    e.expiry.Some? ==> now < e.expiry.value
  }

  /** What a client sees at a key: expired entries are gone. */
  function Lookup<V>(s: Entries<V>, now: Time, key: string): Option<Entry<V>> {
    if key in s && Live(s[key], now) then Some(s[key]) else None
  }

  datatype Command<V> =
    | Get(key: string)
    | Set(key: string, data: V)
    | SetEx(key: string, data: V, ttl: nat)
    | SetNxEx(key: string, ttl: nat)
    | GetDel(key: string)
    | Del(key: string)
    | IncrExpireNx(key: string, seconds: int)

  datatype Reply<V> = Nil | Done | Bulk(value: Value<V>) | Number(n: int) | Refused

  /** EXPIRE key seconds NX on an entry that exists. */
  function ExpireNx<V>(s: Entries<V>, now: Time, key: string, e: Entry<V>, seconds: int): Entries<V> {
    if e.expiry.Some? then s[key := e]
    else if seconds <= 0 then s - {key}
    else s[key := e.(expiry := Some(now + seconds * SECOND))]
  }

  /** One atomic step of the server. */
  function Exec<V>(s: Entries<V>, now: Time, cmd: Command<V>): (r: (Entries<V>, Reply<V>))
    ensures forall k :: k != cmd.key ==> (k in r.0 <==> k in s) && (k in s ==> r.0[k] == s[k])
  {
    var seen := Lookup(s, now, cmd.key);
    match cmd
    case Get(k) => (s, if seen.Some? then Bulk(seen.value.value) else Nil)
    case Set(k, data) => (s[k := Entry(Data(data), None)], Done)
    case SetEx(k, data, ttl) =>
      if ttl == 0 then (s, Refused)
      else (s[k := Entry(Data(data), Some(now + ttl * SECOND))], Done)
    case SetNxEx(k, ttl) =>
      if ttl == 0 then (s, Refused)
      else if seen.Some? then (s, Nil)
      else (s[k := Entry(Count(1), Some(now + ttl * SECOND))], Done)
    case GetDel(k) => (s - {k}, if seen.Some? then Bulk(seen.value.value) else Nil)
    case Del(k) => (s - {k}, Number(if seen.Some? then 1 else 0))
    case IncrExpireNx(k, seconds) =>
      match seen
      case None => (ExpireNx(s, now, k, Entry(Count(1), None), seconds), Number(1))
      case Some(Entry(Count(n), expiry)) =>
        (ExpireNx(s, now, k, Entry(Count(n + 1), expiry), seconds), Number(n + 1))
      case Some(e) => (ExpireNx(s, now, k, e, seconds), Refused)
  }

  // ---------------------------------------------------------------- traces

  datatype Event<V> = Event(at: Time, cmd: Command<V>)
  type Trace<V> = seq<Event<V>>

  predicate Ordered<V>(tr: Trace<V>) {
    forall i, j | 0 <= i <= j < |tr| :: tr[i].at <= tr[j].at
  }

  /** The store after a prefix of a trace, from an empty store. */
  function After<V>(tr: Trace<V>, n: nat): Entries<V>
    requires n <= |tr|
  {
    if n == 0 then map[] else Exec(After(tr, n - 1), tr[n - 1].at, tr[n - 1].cmd).0
  }

  function ReplyAt<V>(tr: Trace<V>, i: nat): Reply<V>
    requires i < |tr|
  {
    Exec(After(tr, i), tr[i].at, tr[i].cmd).1
  }

  predicate Touches<V>(tr: Trace<V>, i: nat, key: string)
    requires i < |tr|
  {
    tr[i].cmd.key == key
  }

  function At<V>(tr: Trace<V>, n: nat, key: string): Option<Entry<V>>
    requires n <= |tr|
  {
    if key in After(tr, n) then Some(After(tr, n)[key]) else None
  }

  /** Commands on other keys leave a key alone. */
  lemma {:induction false} Untouched<V>(tr: Trace<V>, i: nat, j: nat, key: string)
    requires i <= j <= |tr|
    requires forall m | i <= m < j :: !Touches(tr, m, key)
    ensures At(tr, i, key) == At(tr, j, key)
    decreases j
  {
    if i < j {
      Untouched(tr, i, j - 1, key);
      assert !Touches(tr, j - 1, key);
    }
  }

  /** The store after a trace, from any store. */
  function Played<V>(s: Entries<V>, tr: Trace<V>): Entries<V> {
    if tr == [] then s else
    var last := tr[|tr| - 1];
    Exec(Played(s, tr[..|tr| - 1]), last.at, last.cmd).0
  }

  /** Two stores that differ at most at one key. */
  predicate SameBut<V(==)>(s: Entries<V>, s': Entries<V>, key: string) {
    && s'.Keys + {key} == s.Keys + {key}
    && forall k | k in s && k in s' && k != key :: s'[k] == s[k]
  }

  // ---------------------------------------------------------------- the client

  /** `CacherClient`: each method is one round trip at the given instant. */
  class CacherClient<V(==)> {
    var entries: Entries<V>

    constructor ()
      ensures entries == map[]
    {
      entries := map[];
    }

    method Send(now: Time, cmd: Command<V>) returns (r: Reply<V>)
      modifies this
      ensures (entries, r) == Exec(old(entries), now, cmd)
    {
      var (next, reply) := Exec(entries, now, cmd);
      entries := next;
      r := reply;
    }

    /** GETDEL: whoever gets the value, nobody gets it again. */
    method GetAndDeleteValue(now: Time, key: string) returns (r: Option<Value<V>>)
      modifies this
      ensures r == (match old(Lookup(entries, now, key)) case Some(e) => Some(e.value) case None => None)
      ensures entries == old(entries) - {key}
      ensures forall later :: Lookup(entries, later, key).None?
    {
      var reply := Send(now, GetDel(key));
      r := if reply.Bulk? then Some(reply.value) else None;
    }

    /** DEL: true exactly when a live entry was there; either way the key is gone. */
    method Delete(now: Time, key: string) returns (ok: bool)
      modifies this
      ensures ok <==> old(Lookup(entries, now, key)).Some?
      ensures entries == old(entries) - {key}
    {
      var reply := Send(now, Del(key));
      ok := reply.Number? && reply.n > 0;
    }

    /** SET NX EX: true exactly when no live entry was there; then the key is held for `ttl` seconds. */
    method CanProcessNow(now: Time, key: string, ttl: nat) returns (ok: Option<bool>)
      modifies this
      ensures ok.None? <==> ttl == 0
      ensures ok.Some? ==> ok.value == old(Lookup(entries, now, key)).None?
      ensures ok == Some(true) ==>
        forall later | now <= later :: Lookup(entries, later, key).Some? <==> later < now + ttl * SECOND
      ensures ok != Some(true) ==> entries == old(entries)
      ensures SameBut(old(entries), entries, key)
    {
      var reply := Send(now, SetNxEx(key, ttl));
      ok := if reply.Refused? then None else Some(reply.Done?);
    }

    /** INCR with EXPIRE NX: the first increment fixes the deadline, later ones keep it. */
    method IncrementWithTtl(now: Time, key: string, seconds: int) returns (r: Option<int>)
      modifies this
      ensures (entries, if r.Some? then Number(r.value) else Refused)
           == Exec(old(entries), now, IncrExpireNx(key, seconds))
      ensures seconds > 0 ==>
        (match old(Lookup(entries, now, key))
         case None =>
           r == Some(1) && Lookup(entries, now, key) == Some(Entry(Count(1), Some(now + seconds * SECOND)))
         case Some(Entry(Count(n), Some(deadline))) =>
           r == Some(n + 1) && Lookup(entries, now, key) == Some(Entry(Count(n + 1), Some(deadline)))
         case Some(Entry(Count(n), None)) =>
           r == Some(n + 1) && Lookup(entries, now, key) == Some(Entry(Count(n + 1), Some(now + seconds * SECOND)))
         case Some(Entry(Data(_), _)) => r.None?)
    {
      var reply := Send(now, IncrExpireNx(key, seconds));
      r := if reply.Number? then Some(reply.n) else None;
    }

    /** Other clients' commands, in their order. */
    method Interleave(others: Trace<V>)
      modifies this
      ensures entries == Played(old(entries), others)
    {
      ghost var start := entries;
      for i := 0 to |others|
        invariant entries == Played(start, others[..i])
      {
        var _ := Send(others[i].at, others[i].cmd);
        assert others[..i + 1][..i] == others[..i];
      }
      assert others[..|others|] == others;
    }

    /**
     Read-through: a live value is returned untouched, otherwise the fetched one is stored over
     whatever other clients did during the fetch.
     */
    method GetOrSetValue(
      readAt: Time, others: Trace<V>, writeAt: Time, key: string, fetched: Option<V>, ttl: Option<nat>)
      returns (r: Option<V>)
      modifies this
      ensures match old(Lookup(entries, readAt, key))
              case Some(Entry(Data(v), _)) => r == Some(v) && entries == old(entries)
              case _ =>
                var during := Played(old(entries), others);
                if fetched.None? || ttl == Some(0) then r.None? && entries == during
                else
                  && r == fetched
                  && SameBut(during, entries, key)
                  && Lookup(entries, writeAt, key)
                     == Some(Entry(Data(fetched.value), if ttl.Some? then Some(writeAt + ttl.value * SECOND) else None))
    {
      var reply := Send(readAt, Get(key));
      if reply.Bulk? && reply.value.Data? {
        return Some(reply.value.data);
      }
      Interleave(others);
      if fetched.None? {
        return None;
      }
      reply := Send(writeAt, if ttl.Some? then SetEx(key, fetched.value, ttl.value) else Set(key, fetched.value));
      r := if reply.Done? then fetched else None;
    }
  }
}
