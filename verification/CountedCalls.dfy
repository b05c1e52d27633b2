/**
 A few commands sent one after the other over a connection that may fail, with other clients'
 commands in between: the shape of a limiter call, apart from its keys.
 */
module CountedCalls {
  import opened Common
  import opened Store

  /** What becomes of a command: answered, never run, or run with its reply lost. */
  datatype Link = Answered | Unsent | Unheard

  /** One turn: what other clients do first, the command with its instant and its link, and the count it may reach. */
  datatype Turn<V> = Turn(others: Trace<V>, at: Time, cmd: Command<V>, link: Link, limit: int)

  type Turns<V> = seq<Turn<V>>

  /** The store once the first `n` commands have run. */
  function Ran<V>(s: Entries<V>, turns: Turns<V>, n: nat): Entries<V>
    requires n <= |turns|
    decreases n, 0
  {
    if n == 0 then s else Exec(Found(s, turns, n - 1), turns[n - 1].at, turns[n - 1].cmd).0
  }

  /** The store that command `n` finds. */
  function Found<V>(s: Entries<V>, turns: Turns<V>, n: nat): Entries<V>
    requires n < |turns|
    decreases n, 1
  {
    Played(Ran(s, turns, n), turns[n].others)
  }

  function ReplyTo<V>(s: Entries<V>, turns: Turns<V>, n: nat): Reply<V>
    requires n < |turns|
  {
    Exec(Found(s, turns, n), turns[n].at, turns[n].cmd).1
  }

  /** The caller learned a count from command `n`. */
  predicate Heard<V>(s: Entries<V>, turns: Turns<V>, n: nat)
    requires n < |turns|
  {
    turns[n].link.Answered? && ReplyTo(s, turns, n).Number?
  }

  /** That count was within its limit. */
  predicate Within<V>(s: Entries<V>, turns: Turns<V>, n: nat)
    requires n < |turns|
  {
    ReplyTo(s, turns, n).Number? && ReplyTo(s, turns, n).n <= turns[n].limit
  }

  ghost predicate AllHeard<V>(s: Entries<V>, turns: Turns<V>) {
    forall n | 0 <= n < |turns| :: Heard(s, turns, n)
  }

  ghost predicate AllWithin<V>(s: Entries<V>, turns: Turns<V>) {
    forall n | 0 <= n < |turns| :: Within(s, turns, n)
  }

  /** Command `n` was the first that brought no count back. */
  ghost predicate StoppedAt<V>(s: Entries<V>, s': Entries<V>, turns: Turns<V>, n: nat) {
    && n < |turns|
    && !Heard(s, turns, n)
    && (forall m | 0 <= m < n :: Heard(s, turns, m))
    && s' == if turns[n].link.Unsent? then Found(s, turns, n) else Ran(s, turns, n + 1)
  }

  /** What the calls answer, and what they leave in the store. */
  ghost predicate Consumed<V>(s: Entries<V>, s': Entries<V>, turns: Turns<V>, r: Option<bool>) {
    && (r.Some? <==> AllHeard(s, turns))
    && (r.Some? ==> s' == Ran(s, turns, |turns|) && (r.value <==> AllWithin(s, turns)))
    && (r.None? ==> exists n: nat :: StoppedAt(s, s', turns, n))
  }

  method SendCounted<V(==)>(cacher: CacherClient<V>, turn: Turn<V>) returns (count: Option<int>)
    modifies cacher
    ensures var found := Played(old(cacher.entries), turn.others);
      var (after, reply) := Exec(found, turn.at, turn.cmd);
      && cacher.entries == (if turn.link.Unsent? then found else after)
      && count == if turn.link.Answered? && reply.Number? then Some(reply.n) else None
  {
    cacher.Interleave(turn.others);
    if turn.link.Unsent? {
      return None;
    }
    var reply := cacher.Send(turn.at, turn.cmd);
    return if turn.link.Answered? && reply.Number? then Some(reply.n) else None;
  }

  /** Sends all, whatever the counts, until one brings no count back. */
  method SendAll<V(==)>(cacher: CacherClient<V>, turns: Turns<V>) returns (r: Option<bool>)
    modifies cacher
    ensures Consumed(old(cacher.entries), cacher.entries, turns, r)
  {
    ghost var start := cacher.entries;
    var allowed := true;
    for i := 0 to |turns|
      invariant cacher.entries == Ran(start, turns, i)
      invariant forall n | 0 <= n < i :: Heard(start, turns, n)
      invariant allowed <==> forall n | 0 <= n < i :: Within(start, turns, n)
    {
      var count := SendCounted(cacher, turns[i]);
      if count.None? {
        assert StoppedAt(start, cacher.entries, turns, i);
        return None;
      }
      assert Heard(start, turns, i);
      assert Within(start, turns, i) <==> count.value <= turns[i].limit;
      allowed := allowed && count.value <= turns[i].limit;
    }
    return Some(allowed);
  }

  // ---------------------------------------------------------------- as part of a trace

  /** The events of the first `n` turns. */
  function Events<V>(turns: Turns<V>, n: nat): Trace<V>
    requires n <= |turns|
  {
    if n == 0 then []
    else Events(turns, n - 1) + turns[n - 1].others + [Event(turns[n - 1].at, turns[n - 1].cmd)]
  }

  lemma {:induction false} PlayedAppend<V>(s: Entries<V>, a: Trace<V>, b: Trace<V>)
    ensures Played(s, a + b) == Played(Played(s, a), b)
  {
    if b == [] {
      assert a + b == a;
    } else {
      var n := |b| - 1;
      assert (a + b)[..|a + b| - 1] == a + b[..n];
      PlayedAppend(s, a, b[..n]);
    }
  }

  lemma {:induction false} AfterIsPlayed<V>(tr: Trace<V>, n: nat)
    requires n <= |tr|
    ensures After(tr, n) == Played(map[], tr[..n])
  {
    if n > 0 {
      AfterIsPlayed(tr, n - 1);
      assert tr[..n][..n - 1] == tr[..n - 1];
    }
  }

  lemma {:induction false} PlayedSnoc<V>(s: Entries<V>, tr: Trace<V>, e: Event<V>)
    ensures Played(s, tr + [e]) == Exec(Played(s, tr), e.at, e.cmd).0
  {
    assert (tr + [e])[..|tr|] == tr;
  }

  lemma {:induction false} RanIsPlayed<V>(s: Entries<V>, turns: Turns<V>, n: nat)
    requires n <= |turns|
    ensures Ran(s, turns, n) == Played(s, Events(turns, n))
    decreases n, 0
  {
    if n > 0 {
      FoundIsPlayed(s, turns, n - 1);
      PlayedSnoc(s, Events(turns, n - 1) + turns[n - 1].others, Event(turns[n - 1].at, turns[n - 1].cmd));
    }
  }

  lemma {:induction false} FoundIsPlayed<V>(s: Entries<V>, turns: Turns<V>, n: nat)
    requires n < |turns|
    ensures Found(s, turns, n) == Played(s, Events(turns, n) + turns[n].others)
    decreases n, 1
  {
    RanIsPlayed(s, turns, n);
    PlayedAppend(s, Events(turns, n), turns[n].others);
  }

  /** Where command `n` stands among the events. */
  function Place<V>(turns: Turns<V>, n: nat): nat
    requires n < |turns|
  {
    |Events(turns, n)| + |turns[n].others|
  }

  lemma {:induction false} EventsAt<V>(turns: Turns<V>, n: nat, m: nat)
    requires n < m <= |turns|
    ensures var i := Place(turns, n);
      && i < |Events(turns, m)|
      && Events(turns, m)[i] == Event(turns[n].at, turns[n].cmd)
      && Events(turns, m)[..i] == Events(turns, n) + turns[n].others
    decreases m
  {
    var i, before := Place(turns, n), Events(turns, m - 1);
    if n < m - 1 {
      EventsAt(turns, n, m - 1);
      assert Events(turns, m)[..i] == before[..i];
    }
  }

  lemma {:induction false} ReplyFrom<V>(tr: Trace<V>, past: Trace<V>, i: nat)
    requires i < |tr| && tr[..i] == past
    ensures ReplyAt(tr, i) == Exec(Played(map[], past), tr[i].at, tr[i].cmd).1
  {
    AfterIsPlayed(tr, i);
  }

  lemma {:induction false} FoundInTrace<V>(past: Trace<V>, turns: Turns<V>, n: nat)
    requires n < |turns|
    ensures Found(Played(map[], past), turns, n) == Played(map[], past + (Events(turns, n) + turns[n].others))
  {
    PlayedAppend(map[], past, Events(turns, n) + turns[n].others);
    FoundIsPlayed(Played(map[], past), turns, n);
  }

  lemma {:induction false} PlaceInTrace<V>(past: Trace<V>, turns: Turns<V>, full: Trace<V>, n: nat)
    requires n < |turns| && full == past + Events(turns, |turns|)
    ensures var i := |past| + Place(turns, n);
      && i < |full| && full[i] == Event(turns[n].at, turns[n].cmd)
      && full[..i] == past + (Events(turns, n) + turns[n].others)
  {
    EventsAt(turns, n, |turns|);
  }

  /** The reply a command gets is the reply at its place in the whole trace. */
  lemma {:induction false} ReplyInTrace<V>(past: Trace<V>, turns: Turns<V>, full: Trace<V>, n: nat)
    requires n < |turns| && full == past + Events(turns, |turns|)
    ensures var i := |past| + Place(turns, n);
      && i < |full| && full[i] == Event(turns[n].at, turns[n].cmd)
      && ReplyAt(full, i) == ReplyTo(Played(map[], past), turns, n)
  {
    PlaceInTrace(past, turns, full, n);
    FoundInTrace(past, turns, n);
    ReplyFrom(full, past + (Events(turns, n) + turns[n].others), |past| + Place(turns, n));
  }

  /** So a command is within its limit exactly when its place in the trace got a count within it. */
  lemma {:induction false} WithinByReply<V>(past: Trace<V>, turns: Turns<V>, full: Trace<V>, n: nat, count: int)
    requires n < |turns| && full == past + Events(turns, |turns|) && |past| + Place(turns, n) < |full|
    requires ReplyAt(full, |past| + Place(turns, n)) == Number(count)
    ensures ReplyTo(Played(map[], past), turns, n).Number?
    ensures Within(Played(map[], past), turns, n) <==> count <= turns[n].limit
  {
    ReplyInTrace(past, turns, full, n);
  }

  lemma {:induction false} RanInTrace<V>(past: Trace<V>, turns: Turns<V>)
    ensures Ran(Played(map[], past), turns, |turns|) == Played(map[], past + Events(turns, |turns|))
  {
    PlayedAppend(map[], past, Events(turns, |turns|));
    RanIsPlayed(Played(map[], past), turns, |turns|);
  }
}
