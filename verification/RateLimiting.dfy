/**
 The fixed-window limiter (core/crates/cacher/src/rate_limiter.rs) over INCR with EXPIRE NX.

 A window's counter lives from its first increment for the window's length. The bounds below hold
 for every interleaving of callers: they count admitted increments per lifetime and per interval.
 */
module RateLimiting {
  import opened Common
  import opened Store
  import opened CacheKeys
  import opened CountedCalls

  // ---------------------------------------------------------------- counting

  lemma {:induction false} InjectiveBound(s: set<nat>, f: nat -> int, lo: int, hi: int)
    requires forall i | i in s :: lo <= f(i) <= hi
    requires forall i, j | i in s && j in s && f(i) == f(j) :: i == j
    requires lo <= hi + 1
    ensures |s| <= hi - lo + 1
    decreases hi - lo + 1
  {
    if i :| i in s && f(i) == hi {
      InjectiveBound(s - {i}, f, lo, hi - 1);
    } else if lo <= hi {
      InjectiveBound(s, f, lo, hi - 1);
    } else {
      assert s == {};
    }
  }

  lemma {:induction false} MapBound(s: set<nat>, t: set<nat>, f: map<nat, nat>)
    requires forall i | i in s :: i in f && f[i] in t
    requires forall i, j | i in s && j in s && f[i] == f[j] :: i == j
    ensures |s| <= |t|
    decreases s
  {
    if i :| i in s {
      MapBound(s - {i}, t - {f[i]}, f);
    }
  }

  lemma {:induction false} LeastOf(s: set<nat>) returns (m: nat)
    requires s != {}
    ensures m in s && forall i | i in s :: m <= i
    decreases s
  {
    m :| m in s;
    if s != {m} {
      var least := LeastOf(s - {m});
      assert forall i | i in s :: i == m || i in s - {m};
      m := if least < m then least else m;
    }
  }

  // ---------------------------------------------------------------- one counter

  /** The key is only ever incremented, always with the same window length. */
  predicate CounterOnly<V>(tr: Trace<V>, key: string, seconds: nat) {
    && seconds > 0
    && Ordered(tr)
    && forall i | 0 <= i < |tr| && Touches(tr, i, key) :: tr[i].cmd == IncrExpireNx(key, seconds)
  }

  /** The count an increment returned. */
  function Rank<V>(tr: Trace<V>, i: nat): int
    requires i < |tr|
  {
    if ReplyAt(tr, i).Number? then ReplyAt(tr, i).n else 0
  }

  /** When the counter an increment landed on will expire. */
  function Deadline<V>(tr: Trace<V>, i: nat, key: string): Time
    requires i < |tr|
  {
    match At(tr, i + 1, key)
    case Some(Entry(_, Some(t))) => t
    case _ => 0
  }

  lemma {:induction false} CounterShape<V>(tr: Trace<V>, n: nat, key: string, seconds: nat)
    requires CounterOnly(tr, key, seconds) && n <= |tr|
    ensures match At(tr, n, key)
            case None => true
            case Some(Entry(Count(c), Some(t))) => n > 0 && c >= 1 && t <= tr[n - 1].at + seconds * SECOND
            case _ => false
    decreases n
  {
    if n > 0 {
      CounterShape(tr, n - 1, key, seconds);
      if !Touches(tr, n - 1, key) { Untouched(tr, n - 1, n, key); }
    }
  }

  lemma {:induction false} Increment<V>(tr: Trace<V>, i: nat, key: string, seconds: nat)
    requires CounterOnly(tr, key, seconds) && i < |tr| && Touches(tr, i, key)
    ensures ReplyAt(tr, i) == Number(Rank(tr, i)) && Rank(tr, i) >= 1
    ensures At(tr, i + 1, key) == Some(Entry(Count(Rank(tr, i)), Some(Deadline(tr, i, key))))
    ensures tr[i].at < Deadline(tr, i, key) <= tr[i].at + seconds * SECOND
    ensures Rank(tr, i) == 1 ==> Deadline(tr, i, key) == tr[i].at + seconds * SECOND
  {
    CounterShape(tr, i, key, seconds);
    CounterShape(tr, i + 1, key, seconds);
    assert tr[i].cmd == IncrExpireNx(key, seconds);
  }

  /** After an increment the key holds that counter grown, or one born after it expired. */
  lemma {:induction false} Onwards<V>(tr: Trace<V>, i: nat, m: nat, key: string, seconds: nat)
    requires CounterOnly(tr, key, seconds) && i < m <= |tr| && Touches(tr, i, key)
    ensures match At(tr, m, key)
            case Some(Entry(Count(c), Some(t))) =>
              || (t == Deadline(tr, i, key) && c >= Rank(tr, i))
              || t >= Deadline(tr, i, key) + seconds * SECOND
            case _ => false
    decreases m
  {
    Increment(tr, i, key, seconds);
    if m > i + 1 {
      Onwards(tr, i, m - 1, key, seconds);
      if Touches(tr, m - 1, key) {
        assert tr[m - 1].cmd == IncrExpireNx(key, seconds);
      } else {
        Untouched(tr, m - 1, m, key);
      }
    }
  }

  /** Two increments share a counter in rising order, or sit on counters a window apart. */
  lemma {:induction false} TwoIncrements<V>(tr: Trace<V>, i: nat, j: nat, key: string, seconds: nat)
    requires CounterOnly(tr, key, seconds) && i < j < |tr| && Touches(tr, i, key) && Touches(tr, j, key)
    ensures || (Deadline(tr, j, key) == Deadline(tr, i, key) && Rank(tr, j) > Rank(tr, i))
            || Deadline(tr, j, key) >= Deadline(tr, i, key) + seconds * SECOND
  {
    Onwards(tr, i, j, key, seconds);
    Increment(tr, j, key, seconds);
    assert tr[j].cmd == IncrExpireNx(key, seconds);
  }

  // ---------------------------------------------------------------- bounds

  predicate Admitted<V>(tr: Trace<V>, i: nat, key: string, limit: int)
    requires i < |tr|
  {
    Touches(tr, i, key) && Rank(tr, i) <= limit
  }

  /** Any set of admitted increments of one counter, of rank `lo` and up. */
  lemma {:induction false} LifetimeBound<V>(
    tr: Trace<V>, key: string, seconds: nat, limit: int, s: set<nat>, lo: int, deadline: Time)
    requires CounterOnly(tr, key, seconds) && 1 <= lo <= limit + 1
    requires forall i | i in s ::
      i < |tr| && Admitted(tr, i, key, limit) && Rank(tr, i) >= lo && Deadline(tr, i, key) == deadline
    ensures |s| <= limit - lo + 1
  {
    forall i, j | i in s && j in s && Rank(tr, i) == Rank(tr, j) ensures i == j {
      if i < j {
        TwoIncrements(tr, i, j, key, seconds);
      } else if j < i {
        TwoIncrements(tr, j, i, key, seconds);
      }
    }
    InjectiveBound(s, (i: nat) => if i < |tr| then Rank(tr, i) else 0, lo, limit);
  }

  /** Within one window length, increments land on at most two counters. */
  lemma {:induction false} TwoCounters<V>(
    tr: Trace<V>, key: string, seconds: nat, s: set<nat>, from: Time, i: nat, j: nat, m: nat)
    requires CounterOnly(tr, key, seconds)
    requires forall k | k in s :: k < |tr| && Touches(tr, k, key) && from <= tr[k].at <= from + seconds * SECOND
    requires i in s && j in s && m in s && i < j < m
    requires Deadline(tr, i, key) != Deadline(tr, j, key)
    ensures Deadline(tr, m, key) == Deadline(tr, j, key)
  {
    TwoIncrements(tr, i, j, key, seconds);
    TwoIncrements(tr, j, m, key, seconds);
    Increment(tr, i, key, seconds);
    Increment(tr, m, key, seconds);
  }

  /** The increments of an interval fall into two lifetimes, a window apart. */
  lemma {:induction false} SplitByCounter<V>(tr: Trace<V>, key: string, seconds: nat, s: set<nat>, from: Time)
    returns (first: set<nat>, rest: set<nat>, x: Time, y: Time)
    requires CounterOnly(tr, key, seconds)
    requires forall k | k in s :: k < |tr| && Touches(tr, k, key) && from <= tr[k].at <= from + seconds * SECOND
    ensures s == first + rest && first !! rest
    ensures forall k | k in first :: Deadline(tr, k, key) == x
    ensures forall k | k in rest :: Deadline(tr, k, key) == y
    ensures rest != {} ==> y >= x + seconds * SECOND
  {
    first, rest, x, y := {}, {}, 0, 0;
    if s != {} {
      var i := LeastOf(s);
      x := Deadline(tr, i, key);
      first := set k | k in s && Deadline(tr, k, key) == x;
      rest := s - first;
      if rest != {} {
        var j := LeastOf(rest);
        y := Deadline(tr, j, key);
        TwoIncrements(tr, i, j, key, seconds);
        forall m | m in rest ensures Deadline(tr, m, key) == y {
          if m != j { TwoCounters(tr, key, seconds, s, from, i, j, m); }
        }
      }
    }
  }

  /** Any interval as long as the window, ends included, admits at most twice the limit. */
  lemma {:induction false} IntervalBound<V>(
    tr: Trace<V>, key: string, seconds: nat, limit: int, s: set<nat>, from: Time)
    requires CounterOnly(tr, key, seconds) && limit >= 0
    requires forall i | i in s ::
      i < |tr| && Admitted(tr, i, key, limit) && from <= tr[i].at <= from + seconds * SECOND
    ensures |s| <= 2 * limit
  {
    var first, rest, x, y := SplitByCounter(tr, key, seconds, s, from);
    forall k | k in s ensures Rank(tr, k) >= 1 { Increment(tr, k, key, seconds); }
    LifetimeBound(tr, key, seconds, limit, first, 1, x);
    LifetimeBound(tr, key, seconds, limit, rest, 1, y);
  }

  /** A counter that was opened inside the interval has no successor inside it. */
  lemma {:induction false} OpenedBefore<V>(tr: Trace<V>, key: string, seconds: nat, from: Time, k: nat, m: nat)
    requires CounterOnly(tr, key, seconds) && k < |tr| && m < |tr| && Touches(tr, k, key) && Touches(tr, m, key)
    requires from <= tr[k].at && tr[m].at < from + seconds * SECOND
    requires Deadline(tr, m, key) >= Deadline(tr, k, key) + seconds * SECOND
    ensures Rank(tr, k) >= 2
  {
    Increment(tr, k, key, seconds);
    Increment(tr, m, key, seconds);
  }

  /** Leaving out the interval's far end brings the bound down by one. */
  lemma {:induction false} HalfOpenBound<V>(
    tr: Trace<V>, key: string, seconds: nat, limit: int, s: set<nat>, from: Time)
    requires CounterOnly(tr, key, seconds) && limit >= 1
    requires forall i | i in s ::
      i < |tr| && Admitted(tr, i, key, limit) && from <= tr[i].at < from + seconds * SECOND
    ensures |s| <= 2 * limit - 1
  {
    var first, rest, x, y := SplitByCounter(tr, key, seconds, s, from);
    forall k | k in s ensures Rank(tr, k) >= 1 { Increment(tr, k, key, seconds); }
    LifetimeBound(tr, key, seconds, limit, rest, 1, y);
    if rest == {} {
      LifetimeBound(tr, key, seconds, limit, first, 1, x);
    } else {
      var m :| m in rest;
      forall k | k in first ensures Rank(tr, k) >= 2 { OpenedBefore(tr, key, seconds, from, k, m); }
      LifetimeBound(tr, key, seconds, limit, first, 2, x);
    }
  }

  // ---------------------------------------------------------------- the bounds are reached

  /** An increment joins the live counter or starts one. */
  lemma {:induction false} CounterStep<V>(tr: Trace<V>, i: nat, key: string, seconds: nat)
    requires i < |tr| && tr[i].cmd == IncrExpireNx(key, seconds) && seconds > 0
    ensures var born := Entry(Count(1), Some(tr[i].at + seconds * SECOND));
      match At(tr, i, key)
      case None => At(tr, i + 1, key) == Some(born) && ReplyAt(tr, i) == Number(1)
      case Some(Entry(Count(c), Some(t))) =>
        if tr[i].at < t then At(tr, i + 1, key) == Some(Entry(Count(c + 1), Some(t))) && ReplyAt(tr, i) == Number(c + 1)
        else At(tr, i + 1, key) == Some(born) && ReplyAt(tr, i) == Number(1)
      case _ => true
  {
  }

  /** One early increment, a burst just before the counter expires, and a burst right after. */
  function BurstAt(i: nat, seconds: nat, limit: nat): Time
    requires seconds > 0
  {
    if i == 0 then 0 else if i < limit then seconds * SECOND - 1 else seconds * SECOND
  }

  function Bursts<V>(key: string, seconds: nat, limit: nat): Trace<V>
    requires seconds > 0
  {
    seq(2 * limit, i requires 0 <= i < 2 * limit => Event(BurstAt(i, seconds, limit), IncrExpireNx(key, seconds)))
  }

  /** The counter after increment `i`: it is renewed once, after `limit` increments. */
  function BurstEntry<V>(i: nat, seconds: nat, limit: nat): Entry<V> {
    if i < limit then Entry(Count(i + 1), Some(seconds * SECOND))
    else Entry(Count(i + 1 - limit), Some(2 * seconds * SECOND))
  }

  lemma {:induction false} BurstGoesOn<V>(tr: Trace<V>, m: nat, key: string, seconds: nat, limit: nat, i: nat)
    requires seconds > 0 && limit > 0 && m < |tr|
    requires tr[m] == Event(BurstAt(i, seconds, limit), IncrExpireNx(key, seconds))
    requires At(tr, m, key) == if i == 0 then None else Some(BurstEntry(i - 1, seconds, limit))
    ensures At(tr, m + 1, key) == Some(BurstEntry(i, seconds, limit)) || i >= 2 * limit
    ensures i < 2 * limit ==> ReplyAt(tr, m) == Number(BurstEntry<V>(i, seconds, limit).value.n)
  {
    CounterStep(tr, m, key, seconds);
  }

  lemma {:induction false} BurstCounts<V>(tr: Trace<V>, key: string, seconds: nat, limit: nat, i: nat)
    requires seconds > 0 && tr == Bursts<V>(key, seconds, limit) && i < 2 * limit
    ensures At(tr, i + 1, key) == Some(BurstEntry(i, seconds, limit))
    ensures ReplyAt(tr, i) == Number(BurstEntry<V>(i, seconds, limit).value.n)
  {
    if i > 0 {
      BurstCounts(tr, key, seconds, limit, i - 1);
    }
    BurstGoesOn(tr, i, key, seconds, limit, i);
  }

  /** Both bounds are attained: closed intervals admit 2 x limit, half-open ones 2 x limit - 1. */
  lemma {:induction false} BoundsReached<V>(key: string, seconds: nat, limit: nat)
    requires seconds > 0 && limit >= 1
    ensures var tr := Bursts<V>(key, seconds, limit);
      && CounterOnly(tr, key, seconds) && |tr| == 2 * limit
      && (forall i | 0 <= i < 2 * limit :: Admitted(tr, i, key, limit) && 0 <= tr[i].at <= seconds * SECOND)
      && (forall i | 1 <= i < 2 * limit :: 1 <= tr[i].at < 1 + seconds * SECOND)
  {
    var tr := Bursts<V>(key, seconds, limit);
    forall i | 0 <= i < 2 * limit ensures Admitted(tr, i, key, limit) {
      BurstCounts(tr, key, seconds, limit, i);
    }
  }

  // ---------------------------------------------------------------- whole calls

  const WINDOWS: seq<Window> := [Minute, Hour, Day, Week]

  datatype Limits = Limits(minute: int, hour: int, day: int, week: int)

  function LimitFor(l: Limits, w: Window): int {
    match w
    case Minute => l.minute
    case Hour => l.hour
    case Day => l.day
    case Week => l.week
  }

  datatype Call = Call(key: RateLimitKey, scope: string, limits: Limits)

  /** One window's increment by a `consume` call, or a command on another kind of key. */
  datatype Step<V> =
    | Bump(at: Time, id: nat, call: Call, window: Window)
    | Elsewhere(at: Time, owner: Owner, cmd: Command<V>)

  type Steps<V> = seq<Step<V>>

  function CounterKey(call: Call, w: Window): string {
    Key(RateLimit(call.key, call.scope, w))
  }

  function CommandOf<V>(step: Step<V>): Command<V> {
    match step
    case Bump(_, _, call, w) => IncrExpireNx(CounterKey(call, w), WindowSeconds(w))
    case Elsewhere(_, _, cmd) => cmd
  }

  function EventOf<V>(step: Step<V>): Event<V> {
    Event(step.at, CommandOf(step))
  }

  function TraceOf<V>(steps: Steps<V>): Trace<V> {
    seq(|steps|, i requires 0 <= i < |steps| => EventOf(steps[i]))
  }

  predicate NoCounter(owner: Owner) {
    OwnerOk(owner) && !(owner.Enumerated? && owner.key.RateLimit?)
  }

  /** A call keeps its arguments, visits each window once, and other keys have their own owners. */
  ghost predicate LegalRun<V>(steps: Steps<V>) {
    && (forall i, j | 0 <= i <= j < |steps| :: steps[i].at <= steps[j].at)
    && (forall i | 0 <= i < |steps| && steps[i].Elsewhere? ::
          NoCounter(steps[i].owner) && steps[i].cmd.key == OwnedKey(steps[i].owner))
    && (forall i, j | 0 <= i < j < |steps| && steps[i].Bump? && steps[j].Bump? && steps[i].id == steps[j].id ::
          steps[i].call == steps[j].call && steps[i].window != steps[j].window)
  }

  lemma {:induction false} CounterKeyApart(call: Call, w: Window, call': Call, w': Window)
    requires CounterKey(call, w) == CounterKey(call', w')
    ensures call.key == call'.key && call.scope == call'.scope && w == w'
  {
    KeyInjective(RateLimit(call.key, call.scope, w), RateLimit(call'.key, call'.scope, w'));
  }

  lemma {:induction false} StepKey<V>(step: Step<V>, call: Call, w: Window)
    requires step.Elsewhere? ==> NoCounter(step.owner) && step.cmd.key == OwnedKey(step.owner)
    requires EventOf(step).cmd.key == CounterKey(call, w)
    ensures EventOf(step).cmd == IncrExpireNx(CounterKey(call, w), WindowSeconds(w))
  {
    if step.Elsewhere? {
      OwnersApart(step.owner, Enumerated(RateLimit(call.key, call.scope, w)));
    } else {
      CounterKeyApart(step.call, step.window, call, w);
    }
  }

  /** Every counter key of a legal run is a pure counter, so the bounds apply to it. */
  lemma {:induction false} CallsUseCounters<V>(steps: Steps<V>, call: Call, w: Window)
    requires LegalRun(steps)
    ensures CounterOnly(TraceOf(steps), CounterKey(call, w), WindowSeconds(w))
  {
    var tr := TraceOf(steps);
    forall i | 0 <= i < |tr| && Touches(tr, i, CounterKey(call, w))
      ensures tr[i].cmd == IncrExpireNx(CounterKey(call, w), WindowSeconds(w))
    {
      StepKey(steps[i], call, w);
    }
  }

  /** Step `i` is the call's increment of window `w`, and it was within the call's limit. */
  ghost predicate PassedAt<V>(steps: Steps<V>, id: nat, w: Window, i: nat) {
    && i < |steps|
    && steps[i].Bump? && steps[i].id == id && steps[i].window == w
    && Rank(TraceOf(steps), i) <= LimitFor(steps[i].call.limits, w)
  }

  ghost predicate Passed<V>(steps: Steps<V>, id: nat, w: Window) {
    exists i: nat :: PassedAt(steps, id, w, i)
  }

  /** `consume` returned true: every window's increment was within its limit. */
  ghost predicate Allowed<V>(steps: Steps<V>, id: nat) {
    forall w: Window :: Passed(steps, id, w)
  }

  /**
   `at` names allowed calls on one key and scope, whose limits for window `w` are at most `limit`,
   and for each the step that counted it in that window.
   */
  ghost predicate AllowedCalls<V>(
    steps: Steps<V>, key: RateLimitKey, scope: string, w: Window, limit: int, at: map<nat, nat>)
  {
    forall id | id in at ::
      && Allowed(steps, id)
      && PassedAt(steps, id, w, at[id])
      && var call := steps[at[id]].call;
         call.key == key && call.scope == scope && LimitFor(call.limits, w) <= limit
  }

  /** Each allowed call has an admitted increment of its own on the shared counter. */
  lemma {:induction false} CallsAreIncrements<V>(
    steps: Steps<V>, key: RateLimitKey, scope: string, w: Window, limit: int, at: map<nat, nat>)
    returns (s: set<nat>, counter: string)
    requires LegalRun(steps) && AllowedCalls(steps, key, scope, w, limit, at)
    ensures CounterOnly(TraceOf(steps), counter, WindowSeconds(w))
    ensures s == (set id | id in at :: at[id]) && |at| <= |s|
    ensures forall i | i in s ::
      i < |steps| && Admitted(TraceOf(steps), i, counter, limit) && Rank(TraceOf(steps), i) >= 1
    ensures limit <= 0 ==> |at| == 0
  {
    var tr, call := TraceOf(steps), Call(key, scope, Limits(0, 0, 0, 0));
    s, counter := set id | id in at :: at[id], CounterKey(call, w);
    CallsUseCounters(steps, call, w);
    MapBound(at.Keys, s, at);
    forall i | i in s ensures i < |steps| && Admitted(tr, i, counter, limit) && Rank(tr, i) >= 1 {
      var id :| id in at && at[id] == i;
      assert PassedAt(steps, id, w, i);
      Increment(tr, i, counter, WindowSeconds(w));
    }
    if limit <= 0 {
      assert s == {};
    }
  }

  /** When the counter that a step landed on expires. */
  function Lifetime<V>(steps: Steps<V>, i: nat): Time
    requires i < |steps|
  {
    Deadline(TraceOf(steps), i, TraceOf(steps)[i].cmd.key)
  }

  /** One lifetime of a window's counter allows at most `limit` calls, however the calls interleave. */
  lemma {:induction false} CallsPerLifetime<V>(
    steps: Steps<V>, key: RateLimitKey, scope: string, w: Window, limit: int, at: map<nat, nat>, deadline: Time)
    requires LegalRun(steps) && AllowedCalls(steps, key, scope, w, limit, at)
    requires forall id | id in at :: Lifetime(steps, at[id]) == deadline
    ensures |at| <= Max(limit, 0)
  {
    var s, counter := CallsAreIncrements(steps, key, scope, w, limit, at);
    if limit > 0 {
      LifetimeBound(TraceOf(steps), counter, WindowSeconds(w), limit, s, 1, deadline);
    }
  }

  /** The same on a trace known only by its times. */
  lemma {:induction false} CallsAreTimed<V>(
    steps: Steps<V>, key: RateLimitKey, scope: string, w: Window, limit: int, at: map<nat, nat>)
    returns (tr: Trace<V>, s: set<nat>, counter: string)
    requires LegalRun(steps) && AllowedCalls(steps, key, scope, w, limit, at)
    ensures |tr| == |steps| && forall i | 0 <= i < |tr| :: tr[i].at == steps[i].at
    ensures CounterOnly(tr, counter, WindowSeconds(w))
    ensures s == (set id | id in at :: at[id]) && |at| <= |s|
    ensures forall i | i in s :: i < |tr| && Admitted(tr, i, counter, limit)
    ensures limit <= 0 ==> |at| == 0
  {
    tr := TraceOf(steps);
    s, counter := CallsAreIncrements(steps, key, scope, w, limit, at);
  }

  /** An interval as long as the window, ends included, allows at most 2 x limit calls. */
  lemma {:induction false} CallsPerInterval<V>(
    steps: Steps<V>, key: RateLimitKey, scope: string, w: Window, limit: int, at: map<nat, nat>, from: Time)
    requires LegalRun(steps) && AllowedCalls(steps, key, scope, w, limit, at)
    requires forall id | id in at :: from <= steps[at[id]].at <= from + WindowSeconds(w) * SECOND
    ensures |at| <= Max(2 * limit, 0)
  {
    var tr, s, counter := CallsAreTimed(steps, key, scope, w, limit, at);
    if limit > 0 {
      IntervalBound(tr, counter, WindowSeconds(w), limit, s, from);
    }
  }

  /** Without the interval's far end, fewer than 2 x limit calls are allowed, and none for no limit. */
  lemma {:induction false} AllowedCallsBound<V>(
    steps: Steps<V>, key: RateLimitKey, scope: string, w: Window, limit: int, at: map<nat, nat>, from: Time)
    requires LegalRun(steps) && AllowedCalls(steps, key, scope, w, limit, at)
    requires forall id | id in at :: from <= steps[at[id]].at < from + WindowSeconds(w) * SECOND
    ensures |at| <= Max(2 * limit - 1, 0)
  {
    var tr, s, counter := CallsAreTimed(steps, key, scope, w, limit, at);
    if limit > 0 {
      HalfOpenBound(tr, counter, WindowSeconds(w), limit, s, from);
    }
  }

  /** The length of a window in milliseconds, and the field of the limits that governs it. */
  function InFull(limits: Limits, w: Window): (Time, int) {
    match w
    case Minute => (60_000, limits.minute)
    case Hour => (3_600_000, limits.hour)
    case Day => (86_400_000, limits.day)
    case Week => (604_800_000, limits.week)
  }

  /** The steps that counted these allowed calls, all alike, in window `w`. */
  ghost predicate CountedAlike<V>(steps: Steps<V>, call: Call, w: Window, at: map<nat, nat>) {
    forall id | id in at ::
      && Allowed(steps, id) && at[id] < |steps|
      && steps[at[id]].Bump? && steps[at[id]].id == id && steps[at[id]].window == w && steps[at[id]].call == call
  }

  lemma {:induction false} AlikeIsAllowed<V>(steps: Steps<V>, call: Call, w: Window, at: map<nat, nat>)
    requires LegalRun(steps) && CountedAlike(steps, call, w, at)
    ensures AllowedCalls(steps, call.key, call.scope, w, InFull(call.limits, w).1, at)
  {
    forall id | id in at ensures PassedAt(steps, id, w, at[id]) {
      assert Passed(steps, id, w);
      var i: nat :| PassedAt(steps, id, w, i);
      assert i == at[id];
    }
  }

  /** The bounds by name: minute, hour, day and week, each with its own length and its own limit. */
  lemma {:induction false} BoundsInFull<V>(steps: Steps<V>, call: Call, w: Window, at: map<nat, nat>, from: Time)
    requires LegalRun(steps) && CountedAlike(steps, call, w, at)
    ensures var (length, limit) := InFull(call.limits, w);
      && ((forall id | id in at :: from <= steps[at[id]].at <= from + length) ==> |at| <= Max(2 * limit, 0))
      && ((forall id | id in at :: from <= steps[at[id]].at < from + length) ==> |at| <= Max(2 * limit - 1, 0))
  {
    var (length, limit) := InFull(call.limits, w);
    assert length == WindowSeconds(w) * SECOND;
    AlikeIsAllowed(steps, call, w, at);
    if forall id | id in at :: from <= steps[at[id]].at <= from + length {
      CallsPerInterval(steps, call.key, call.scope, w, limit, at, from);
    }
    if forall id | id in at :: from <= steps[at[id]].at < from + length {
      AllowedCallsBound(steps, call.key, call.scope, w, limit, at, from);
    }
  }

  // ---------------------------------------------------------------- whole calls reach the bounds

  function IndexOf(w: Window): (p: nat)
    ensures p < 4 && WINDOWS[p] == w
  {
    match w case Minute => 0 case Hour => 1 case Day => 2 case Week => 3
  }

  /** Whole calls, each counting its four windows at one instant, timed to strain window `w`. */
  function CallBursts<V>(call: Call, w: Window, limit: nat): Steps<V> {
    seq(8 * limit, m requires 0 <= m < 8 * limit =>
      Bump(BurstAt(m / 4, WindowSeconds(w), limit), m / 4, call, WINDOWS[m % 4]))
  }

  /** Call number `j` increments the key at offset `p` of its four steps. */
  ghost predicate InLane<V>(tr: Trace<V>, key: string, seconds: nat, p: nat, j: nat, t: Time) {
    4 * j + p < |tr| && tr[4 * j + p] == Event(t, IncrExpireNx(key, seconds))
  }

  /** A key that each of the calls increments once, at offset `p`. */
  ghost predicate Lane<V>(tr: Trace<V>, key: string, seconds: nat, p: nat, limit: nat, window: nat) {
    && window > 0 && p < 4 && |tr| == 8 * limit
    && (forall j: nat | j < 2 * limit :: InLane(tr, key, seconds, p, j, BurstAt(j, window, limit)))
    && (forall m: nat | m < |tr| && Touches(tr, m, key) :: m % 4 == p)
  }

  lemma {:induction false} LaneBefore<V>(
    tr: Trace<V>, key: string, seconds: nat, p: nat, limit: nat, window: nat, j: nat)
    requires Lane(tr, key, seconds, p, limit, window) && j < 2 * limit
    ensures At(tr, 4 * j + p, key) == if j == 0 then None else At(tr, 4 * (j - 1) + p + 1, key)
  {
    var first := if j == 0 then 0 else 4 * (j - 1) + p + 1;
    assert InLane(tr, key, seconds, p, j, BurstAt(j, window, limit));
    Untouched(tr, first, 4 * j + p, key);
  }

  /** A counter is never ahead of the number of calls. */
  lemma {:induction false} LaneCount<V>(
    tr: Trace<V>, key: string, seconds: nat, p: nat, limit: nat, window: nat, j: nat)
    requires Lane(tr, key, seconds, p, limit, window) && j < 2 * limit && seconds > 0
    ensures match At(tr, 4 * j + p + 1, key)
            case Some(Entry(Count(c), Some(_))) => c <= j + 1 && ReplyAt(tr, 4 * j + p) == Number(c)
            case _ => false
  {
    LaneBefore(tr, key, seconds, p, limit, window, j);
    assert InLane(tr, key, seconds, p, j, BurstAt(j, window, limit));
    CounterStep(tr, 4 * j + p, key, seconds);
    if j > 0 {
      LaneCount(tr, key, seconds, p, limit, window, j - 1);
    }
  }

  /** The strained window's counter does what a counter alone does. */
  lemma {:induction false} BurstLane<V>(tr: Trace<V>, key: string, p: nat, limit: nat, window: nat, j: nat)
    requires Lane(tr, key, window, p, limit, window) && j < 2 * limit
    ensures At(tr, 4 * j + p + 1, key) == Some(BurstEntry(j, window, limit))
    ensures ReplyAt(tr, 4 * j + p) == Number(BurstEntry<V>(j, window, limit).value.n)
  {
    if j > 0 {
      BurstLane(tr, key, p, limit, window, j - 1);
    }
    LaneBefore(tr, key, window, p, limit, window, j);
    assert InLane(tr, key, window, p, j, BurstAt(j, window, limit));
    BurstGoesOn(tr, 4 * j + p, key, window, limit, j);
  }

  /** How far the counter of call `j` may be: within the limit in the strained window. */
  lemma {:induction false} LaneRank<V>(tr: Trace<V>, key: string, seconds: nat, p: nat, limit: nat, window: nat, j: nat)
    requires Lane(tr, key, seconds, p, limit, window) && j < 2 * limit && seconds > 0
    ensures 4 * j + p < |tr| && Rank(tr, 4 * j + p) <= if seconds == window then limit else 2 * limit
  {
    LaneCount(tr, key, seconds, p, limit, window, j);
    if seconds == window {
      BurstLane(tr, key, p, limit, window, j);
    }
  }

  lemma {:induction false} SecondsApart(v: Window, w: Window)
    ensures WindowSeconds(v) > 0 && (WindowSeconds(v) == WindowSeconds(w) <==> v == w)
  {
  }

  lemma {:induction false} BurstStep<V>(call: Call, w: Window, limit: nat, v: Window, id: nat)
    requires id < 2 * limit
    ensures CallBursts<V>(call, w, limit)[4 * id + IndexOf(v)]
         == Bump(BurstAt(id, WindowSeconds(w), limit), id, call, v)
  {
    var m := 4 * id + IndexOf(v);
    assert m / 4 == id && m % 4 == IndexOf(v);
  }

  lemma {:induction false} CallBurstsLane<V>(
    steps: Steps<V>, tr: Trace<V>, call: Call, w: Window, limit: nat, v: Window)
    requires steps == CallBursts<V>(call, w, limit) && tr == TraceOf(steps)
    ensures Lane(tr, CounterKey(call, v), WindowSeconds(v), IndexOf(v), limit, WindowSeconds(w))
  {
    var key := CounterKey(call, v);
    forall m: nat | m < |tr| && Touches(tr, m, key) ensures m % 4 == IndexOf(v) {
      CounterKeyApart(call, WINDOWS[m % 4], call, v);
    }
    forall j: nat | j < 2 * limit
      ensures InLane(tr, key, WindowSeconds(v), IndexOf(v), j, BurstAt(j, WindowSeconds(w), limit))
    {
      BurstStep<V>(call, w, limit, v, j);
      assert tr[4 * j + IndexOf(v)] == EventOf(steps[4 * j + IndexOf(v)]);
    }
  }

  lemma {:induction false} CallBurstsLegal<V>(call: Call, w: Window, limit: nat)
    ensures LegalRun(CallBursts<V>(call, w, limit))
  {
    var steps := CallBursts<V>(call, w, limit);
    forall i, j | 0 <= i <= j < |steps| ensures steps[i].at <= steps[j].at {
      BurstsOrdered(i / 4, j / 4, WindowSeconds(w), limit);
    }
    forall i, j | 0 <= i < j < |steps| && steps[i].id == steps[j].id ensures steps[i].window != steps[j].window {
      WindowsDiffer(i, j);
    }
  }

  lemma {:induction false} BurstsOrdered(i: nat, j: nat, seconds: nat, limit: nat)
    requires i <= j && seconds > 0
    ensures BurstAt(i, seconds, limit) <= BurstAt(j, seconds, limit)
  {
  }

  lemma {:induction false} WindowsDiffer(i: nat, j: nat)
    requires i < j && i / 4 == j / 4
    ensures WINDOWS[i % 4] != WINDOWS[j % 4]
  {
    assert i % 4 < j % 4;
  }

  lemma {:induction false} CallBurstRank<V>(
    tr: Trace<V>, key: string, v: Window, w: Window, p: nat, limit: nat, id: nat)
    requires Lane(tr, key, WindowSeconds(v), p, limit, WindowSeconds(w)) && id < 2 * limit
    ensures 4 * id + p < |tr| && Rank(tr, 4 * id + p) <= if v == w then limit else 2 * limit
  {
    SecondsApart(v, w);
    LaneRank(tr, key, WindowSeconds(v), p, limit, WindowSeconds(w), id);
  }

  lemma {:induction false} LanePasses<V>(
    steps: Steps<V>, key: string, t: Time, call: Call, w: Window, limit: nat, v: Window, id: nat)
    requires Lane(TraceOf(steps), key, WindowSeconds(v), IndexOf(v), limit, WindowSeconds(w)) && id < 2 * limit
    requires 4 * id + IndexOf(v) < |steps| && steps[4 * id + IndexOf(v)] == Bump(t, id, call, v)
    requires LimitFor(call.limits, v) >= if v == w then limit else 2 * limit
    ensures PassedAt(steps, id, v, 4 * id + IndexOf(v))
  {
    CallBurstRank(TraceOf(steps), key, v, w, IndexOf(v), limit, id);
  }

  lemma {:induction false} CallBurstPasses<V>(steps: Steps<V>, call: Call, w: Window, limit: nat, v: Window, id: nat)
    requires steps == CallBursts<V>(call, w, limit) && id < 2 * limit
    requires LimitFor(call.limits, v) >= if v == w then limit else 2 * limit
    ensures PassedAt(steps, id, v, 4 * id + IndexOf(v))
  {
    CallBurstsLane(steps, TraceOf(steps), call, w, limit, v);
    BurstStep<V>(call, w, limit, v, id);
    LanePasses(steps, CounterKey(call, v), BurstAt(id, WindowSeconds(w), limit), call, w, limit, v, id);
  }

  lemma {:induction false} CallBurstAllowed<V>(steps: Steps<V>, call: Call, w: Window, limit: nat, id: nat)
    requires steps == CallBursts<V>(call, w, limit) && id < 2 * limit
    requires forall v: Window :: LimitFor(call.limits, v) >= if v == w then limit else 2 * limit
    ensures Allowed(steps, id) && PassedAt(steps, id, w, 4 * id + IndexOf(w))
  {
    forall v: Window ensures Passed(steps, id, v) {
      CallBurstPasses(steps, call, w, limit, v, id);
    }
    CallBurstPasses(steps, call, w, limit, w, id);
  }

  /**
   The bounds are attained by whole calls whenever the other windows leave room for 2 x limit calls:
   all of them are allowed, all within the closed interval and all but the first within the half-open one.
   */
  lemma {:induction false} CallsReachBounds<V>(call: Call, w: Window, id: nat)
    requires LimitFor(call.limits, w) >= 1 && id < 2 * LimitFor(call.limits, w)
    requires forall v: Window | v != w :: LimitFor(call.limits, v) >= 2 * LimitFor(call.limits, w)
    ensures var steps := CallBursts<V>(call, w, LimitFor(call.limits, w));
      && LegalRun(steps) && Allowed(steps, id)
      && PassedAt(steps, id, w, 4 * id + IndexOf(w)) && steps[4 * id + IndexOf(w)].call == call
      && var t := steps[4 * id + IndexOf(w)].at;
         && 0 <= t <= WindowSeconds(w) * SECOND
         && (id > 0 ==> 1 <= t < 1 + WindowSeconds(w) * SECOND)
  {
    var limit := LimitFor(call.limits, w);
    CallBurstsLegal<V>(call, w, limit);
    CallBurstAllowed(CallBursts<V>(call, w, limit), call, w, limit, id);
    BurstStep<V>(call, w, limit, w, id);
  }

  // ---------------------------------------------------------------- the method

  /** One window's turn: what other clients do before it, its instant, and its connection. */
  datatype Visit<V> = Visit(others: Steps<V>, at: Time, link: Link)

  type Visits<V> = seq<Visit<V>>

  function TurnOf<V>(call: Call, visit: Visit<V>, w: Window): Turn<V> {
    Turn(TraceOf(visit.others), visit.at, IncrExpireNx(CounterKey(call, w), WindowSeconds(w)), visit.link,
         LimitFor(call.limits, w))
  }

  /** A call as commands on its four counters. */
  function TurnsOf<V>(call: Call, visits: Visits<V>): (turns: Turns<V>)
    requires |visits| == 4
    ensures |turns| == 4
  {
    seq(4, n requires 0 <= n < 4 => TurnOf(call, visits[n], WINDOWS[n]))
  }

  /** The four commands of a call, in full: key, seconds and limit of each window. */
  lemma {:induction false} TurnsInFull<V>(call: Call, visits: Visits<V>)
    requires |visits| == 4
    ensures var t := TurnsOf(call, visits);
      && t[0].cmd == IncrExpireNx(Key(RateLimit(call.key, call.scope, Minute)), 60) && t[0].limit == call.limits.minute
      && t[1].cmd == IncrExpireNx(Key(RateLimit(call.key, call.scope, Hour)), 3_600) && t[1].limit == call.limits.hour
      && t[2].cmd == IncrExpireNx(Key(RateLimit(call.key, call.scope, Day)), 86_400) && t[2].limit == call.limits.day
      && t[3].cmd == IncrExpireNx(Key(RateLimit(call.key, call.scope, Week)), 604_800) && t[3].limit == call.limits.week
      && forall n | 0 <= n < 4 ::
           t[n].others == TraceOf(visits[n].others) && t[n].at == visits[n].at && t[n].link == visits[n].link
  {
  }

  /** The count that came back for each window. */
  function CountOf<V>(s: Entries<V>, call: Call, visits: Visits<V>, n: nat): int
    requires |visits| == 4 && n < 4
  {
    var reply := ReplyTo(s, TurnsOf(call, visits), n);
    if reply.Number? then reply.n else 0
  }

  /** The minute's, hour's, day's and week's counts, each against its own limit. */
  predicate CountsWithin<V>(s: Entries<V>, call: Call, visits: Visits<V>)
    requires |visits| == 4
  {
    && CountOf(s, call, visits, 0) <= call.limits.minute
    && CountOf(s, call, visits, 1) <= call.limits.hour
    && CountOf(s, call, visits, 2) <= call.limits.day
    && CountOf(s, call, visits, 3) <= call.limits.week
  }

  lemma {:induction false} WithinInFull<V>(s: Entries<V>, call: Call, visits: Visits<V>)
    requires |visits| == 4 && AllHeard(s, TurnsOf(call, visits))
    ensures AllWithin(s, TurnsOf(call, visits)) <==> CountsWithin(s, call, visits)
  {
    var turns := TurnsOf(call, visits);
    TurnsInFull(call, visits);
    forall n | 0 <= n < 4 ensures Within(s, turns, n) <==> CountOf(s, call, visits, n) <= turns[n].limit {
      assert Heard(s, turns, n);
    }
    if CountsWithin(s, call, visits) {
      forall n | 0 <= n < 4 ensures Within(s, turns, n) {
        assert n == 0 || n == 1 || n == 2 || n == 3;
      }
    }
    if AllWithin(s, turns) {
      assert Within(s, turns, 0) && Within(s, turns, 1) && Within(s, turns, 2) && Within(s, turns, 3);
    }
  }

  class RateLimiter<V(==)> {
    const cacher: CacherClient<V>

    constructor (cacher: CacherClient<V>)
      ensures this.cacher == cacher
    {
      this.cacher := cacher;
    }

    /**
     `consume`: a denied window does not stop the loop, so every window advances; only a lost
     command or a store error does. The answer is the conjunction over the windows.
     */
    method Consume(call: Call, visits: Visits<V>) returns (r: Option<bool>)
      requires |visits| == 4
      modifies cacher
      ensures Consumed(old(cacher.entries), cacher.entries, TurnsOf(call, visits), r)
      ensures r.Some? ==> (r.value <==> CountsWithin(old(cacher.entries), call, visits))
    {
      r := SendAll(cacher, TurnsOf(call, visits));
      if r.Some? {
        WithinInFull(old(cacher.entries), call, visits);
      }
    }

    /**
     The same call inside a run of all clients: its increments and the others' steps extend the run,
     and its answer is whether the extended run allows it, so the bounds on allowed calls bound it.
     */
    method ConsumeInRun(call: Call, visits: Visits<V>, ghost past: Steps<V>, ghost id: nat) returns (r: Option<bool>)
      requires |visits| == 4 && cacher.entries == Played(map[], TraceOf(past))
      requires LegalRun(past + Executed(id, call, visits, |visits|))
      modifies cacher
      ensures r.Some? <==> forall n | 0 <= n < 4 :: visits[n].link.Answered?
      ensures r.Some? ==> cacher.entries == Played(map[], TraceOf(past + Executed(id, call, visits, |visits|)))
      ensures r.Some? ==> (r.value <==> Allowed(past + Executed(id, call, visits, |visits|), id))
    {
      ghost var start := cacher.entries;
      r := Consume(call, visits);
      AnswerInRun(past, id, call, visits, start, cacher.entries, r);
    }
  }

  // ---------------------------------------------------------------- a call as part of a run

  /** The steps of a call's first `n` windows, with those of other clients before each. */
  function Executed<V>(id: nat, call: Call, visits: Visits<V>, n: nat): Steps<V>
    requires |visits| == 4 && n <= 4
  {
    if n == 0 then []
    else Executed(id, call, visits, n - 1) + visits[n - 1].others + [Bump(visits[n - 1].at, id, call, WINDOWS[n - 1])]
  }

  lemma {:induction false} TraceConcat<V>(a: Steps<V>, b: Steps<V>)
    ensures TraceOf(a + b) == TraceOf(a) + TraceOf(b)
  {
  }

  lemma {:induction false} BumpEvent<V>(bump: Step<V>, call: Call, visit: Visit<V>, w: Window)
    requires bump.Bump? && bump.at == visit.at && bump.call == call && bump.window == w
    ensures TraceOf([bump]) == [Event(TurnOf(call, visit, w).at, TurnOf(call, visit, w).cmd)]
  {
  }

  lemma {:induction false} ExecutedEvents<V>(id: nat, call: Call, visits: Visits<V>, n: nat)
    requires |visits| == 4 && n <= 4
    ensures TraceOf(Executed(id, call, visits, n)) == Events(TurnsOf(call, visits), n)
  {
    if n > 0 {
      var m := n - 1;
      ExecutedEvents(id, call, visits, m);
      var before := Executed(id, call, visits, m);
      var bump: Step<V> := Bump(visits[m].at, id, call, WINDOWS[m]);
      TraceConcat(before, visits[m].others);
      TraceConcat(before + visits[m].others, [bump]);
      BumpEvent(bump, call, visits[m], WINDOWS[m]);
      assert TurnsOf(call, visits)[m] == TurnOf(call, visits[m], WINDOWS[m]);
    }
  }

  lemma {:induction false} FullTrace<V>(past: Steps<V>, id: nat, call: Call, visits: Visits<V>)
    requires |visits| == 4
    ensures TraceOf(past + Executed(id, call, visits, |visits|))
         == TraceOf(past) + Events(TurnsOf(call, visits), |visits|)
  {
    ExecutedEvents(id, call, visits, |visits|);
    TraceConcat(past, Executed(id, call, visits, |visits|));
  }

  lemma {:induction false} ExecutedPlace<V>(id: nat, call: Call, visits: Visits<V>, n: nat)
    requires |visits| == 4 && n < 4
    ensures Place(TurnsOf(call, visits), n) == |Executed(id, call, visits, n)| + |visits[n].others|
  {
    ExecutedEvents(id, call, visits, n);
    assert |TraceOf(Executed(id, call, visits, n))| == |Executed(id, call, visits, n)|;
    assert TurnsOf(call, visits)[n].others == TraceOf(visits[n].others);
  }

  lemma {:induction false} ExecutedAt<V>(id: nat, call: Call, visits: Visits<V>, n: nat, m: nat)
    requires |visits| == 4 && n < m <= 4
    ensures var i := |Executed(id, call, visits, n)| + |visits[n].others|;
      && i < |Executed(id, call, visits, m)|
      && Executed(id, call, visits, m)[i] == Bump(visits[n].at, id, call, WINDOWS[n])
    decreases m
  {
    if n < m - 1 {
      ExecutedAt(id, call, visits, n, m - 1);
    }
  }

  /** A call passes a window exactly when its one increment there does. */
  lemma {:induction false} OnlyOneBump<V>(full: Steps<V>, id: nat, w: Window, i: nat)
    requires LegalRun(full) && i < |full| && full[i].Bump? && full[i].id == id && full[i].window == w
    ensures Passed(full, id, w) <==> Rank(TraceOf(full), i) <= LimitFor(full[i].call.limits, w)
  {
    if j: nat :| PassedAt(full, id, w, j) {
      assert i == j;
    }
    if Rank(TraceOf(full), i) <= LimitFor(full[i].call.limits, w) {
      assert PassedAt(full, id, w, i);
    }
  }

  /** In a legal run every increment is counted, and its call passes exactly when the count is within the limit. */
  lemma {:induction false} CountedInRun<V>(full: Steps<V>, i: nat, id: nat, call: Call, w: Window) returns (count: int)
    requires LegalRun(full) && i < |full| && full[i].Bump?
    requires full[i].id == id && full[i].call == call && full[i].window == w
    ensures ReplyAt(TraceOf(full), i) == Number(count)
    ensures Passed(full, id, w) <==> count <= LimitFor(call.limits, w)
  {
    count := Rank(TraceOf(full), i);
    CallsUseCounters(full, call, w);
    Increment(TraceOf(full), i, CounterKey(call, w), WindowSeconds(w));
    OnlyOneBump(full, id, w, i);
  }

  /** Turn `n` is the call's increment of its window, where the run has it. */
  predicate TurnAt<V>(full: Steps<V>, past: nat, turns: Turns<V>, id: nat, call: Call, n: nat) {
    && n < 4 && n < |turns| && past + Place(turns, n) < |full|
    && turns[n].limit == LimitFor(call.limits, WINDOWS[n])
    && var bump := full[past + Place(turns, n)];
       bump.Bump? && bump.id == id && bump.call == call && bump.window == WINDOWS[n]
  }

  /** The run ends with the call's four turns. */
  ghost predicate EndsWith<V>(full: Steps<V>, past: Trace<V>, turns: Turns<V>, id: nat, call: Call) {
    && |turns| == 4
    && TraceOf(full) == past + Events(turns, |turns|)
    && forall n | 0 <= n < 4 :: TurnAt(full, |past|, turns, id, call, n)
  }

  lemma {:induction false} WindowInRun<V>(
    full: Steps<V>, tr: Trace<V>, past: Trace<V>, turns: Turns<V>, id: nat, call: Call, n: nat)
    requires LegalRun(full) && tr == TraceOf(full) && tr == past + Events(turns, |turns|)
    requires TurnAt(full, |past|, turns, id, call, n)
    ensures ReplyTo(Played(map[], past), turns, n).Number?
    ensures Passed(full, id, WINDOWS[n]) <==> Within(Played(map[], past), turns, n)
  {
    var count := CountedInRun(full, |past| + Place(turns, n), id, call, WINDOWS[n]);
    WithinByReply(past, turns, tr, n, count);
  }

  /** The call's increment of window `n`, where the run has it. */
  lemma {:induction false} BumpInRun<V>(past: Steps<V>, id: nat, call: Call, visits: Visits<V>, full: Steps<V>, n: nat)
    requires |visits| == 4 && n < 4 && full == past + Executed(id, call, visits, |visits|)
    ensures var i := |past| + Place(TurnsOf(call, visits), n);
      i < |full| && full[i] == Bump(visits[n].at, id, call, WINDOWS[n])
  {
    ExecutedPlace(id, call, visits, n);
    ExecutedAt(id, call, visits, n, |visits|);
  }

  lemma {:induction false} AllowedByWindows<V>(full: Steps<V>, id: nat)
    ensures Allowed(full, id) <==> forall n | 0 <= n < 4 :: Passed(full, id, WINDOWS[n])
  {
    forall w: Window ensures WINDOWS[IndexOf(w)] == w {
    }
    if forall n | 0 <= n < 4 :: Passed(full, id, WINDOWS[n]) {
      forall w: Window ensures Passed(full, id, w) {
        assert Passed(full, id, WINDOWS[IndexOf(w)]);
      }
    }
  }

  /** A legal run allows the call exactly when the call itself finds all its counts within their limits. */
  lemma {:induction false} AllowedIsWithin<V>(full: Steps<V>, past: Trace<V>, turns: Turns<V>, id: nat, call: Call)
    requires LegalRun(full) && EndsWith(full, past, turns, id, call)
    ensures forall n | 0 <= n < 4 :: ReplyTo(Played(map[], past), turns, n).Number?
    ensures Allowed(full, id) <==> AllWithin(Played(map[], past), turns)
  {
    var s := Played(map[], past);
    forall n | 0 <= n < 4
      ensures ReplyTo(s, turns, n).Number? && (Passed(full, id, WINDOWS[n]) <==> Within(s, turns, n))
    {
      WindowInRun(full, TraceOf(full), past, turns, id, call, n);
    }
    AllowedByWindows(full, id);
  }

  lemma {:induction false} ExecutedEndsWith<V>(past: Steps<V>, id: nat, call: Call, visits: Visits<V>)
    requires |visits| == 4
    ensures EndsWith(past + Executed(id, call, visits, |visits|), TraceOf(past), TurnsOf(call, visits), id, call)
  {
    FullTrace(past, id, call, visits);
    forall n | 0 <= n < 4
      ensures TurnAt(past + Executed(id, call, visits, |visits|), |past|, TurnsOf(call, visits), id, call, n)
    {
      BumpInRun(past, id, call, visits, past + Executed(id, call, visits, |visits|), n);
    }
  }

  lemma {:induction false} AnswerInRun<V>(
    past: Steps<V>, id: nat, call: Call, visits: Visits<V>, s: Entries<V>, s': Entries<V>, r: Option<bool>)
    requires |visits| == 4 && s == Played(map[], TraceOf(past)) && Consumed(s, s', TurnsOf(call, visits), r)
    requires LegalRun(past + Executed(id, call, visits, |visits|))
    ensures r.Some? <==> forall n | 0 <= n < 4 :: visits[n].link.Answered?
    ensures r.Some? ==> s' == Played(map[], TraceOf(past + Executed(id, call, visits, |visits|)))
    ensures r.Some? ==> (r.value <==> Allowed(past + Executed(id, call, visits, |visits|), id))
  {
    ExecutedEndsWith(past, id, call, visits);
    AllowedIsWithin(past + Executed(id, call, visits, |visits|), TraceOf(past), TurnsOf(call, visits), id, call);
    RanInTrace(TraceOf(past), TurnsOf(call, visits));
    HeardIsAnswered(s, call, visits);
  }

  lemma {:induction false} HeardIsAnswered<V>(s: Entries<V>, call: Call, visits: Visits<V>)
    requires |visits| == 4 && forall n | 0 <= n < 4 :: ReplyTo(s, TurnsOf(call, visits), n).Number?
    ensures AllHeard(s, TurnsOf(call, visits)) <==> forall n | 0 <= n < 4 :: visits[n].link.Answered?
  {
    var turns := TurnsOf(call, visits);
    forall n | 0 <= n < 4 ensures Heard(s, turns, n) <==> visits[n].link.Answered? {
      assert turns[n].link == visits[n].link;
    }
  }
}
