/**
 The double-checked token refresh behind a one-permit semaphore
 (core/crates/cacher/src/access_token.rs), as a state machine whose steps are the awaits of any
 number of concurrent `get_or_refresh` calls on one cacher, with other clients of the store.

 Cache reads may fail (the source treats that as a miss), writes may fail, refreshes may fail and
 callers may be dropped at any await. A write whose caller saw it fail, or was dropped while it was
 on its way, may still reach the store at any later time.
 */
module AccessToken {
  import opened Common
  import opened Store
  import opened CacheKeys

  /** A token and what the provider said about it. Lifetimes are in milliseconds. */
  datatype Grant = Grant(token: string, issuedAt: Time, lifetime: nat)

  datatype Outcome =
    | FromCache(token: string, readAt: Time)
    | FromRefresh(grant: Grant)
    | Failed

  datatype Caller =
    | Start
    | Waiting
    | Checking
    | Refreshing(since: Time, readOk: bool)
    | Writing(grant: Grant, readOk: bool)
    | Finished(outcome: Outcome)

  /** A refresh that began: when, whether the cache read before it worked, and after how many writes. */
  datatype Refresh = Refresh(at: Time, readOk: bool, after: nat)

  /** A token written to the cache; late when no caller was waiting for the write any more. */
  datatype Write = Write(grant: Grant, at: Time, expiry: Time, late: bool)

  datatype State = State(
    now: Time,
    entries: Entries<string>,
    permit: Option<nat>,
    callers: map<nat, Caller>,
    refreshes: seq<Refresh>,
    writes: seq<Write>,
    inFlight: set<Grant>)

  const SAFETY_MARGIN := 60 * SECOND

  predicate InCritical(c: Caller) {
    c.Checking? || c.Refreshing? || c.Writing?
  }

  /** What a cache read returns: a miss when the command fails. */
  function CachedToken(s: State, key: string, readOk: bool): Option<string> {
    match Lookup(s.entries, s.now, key)
    case Some(Entry(Data(token), _)) => if readOk then Some(token) else None
    case _ => None
  }

  function Released(s: State, id: nat): Option<nat> {
    if s.permit == Some(id) then None else s.permit
  }

  function Ended(s: State, id: nat, outcome: Outcome): State {
    s.(permit := Released(s, id), callers := s.callers[id := Finished(outcome)])
  }

  datatype Step =
    | Tick(time: Time)
    | Arrive(id: nat)
    | FirstRead(id: nat, ok: bool)
    | Acquire(id: nat)
    | SecondRead(id: nat, ok: bool)
    | RefreshOk(id: nat, grant: Grant)
    | RefreshErr(id: nat)
    | Save(id: nat, ok: bool)
    | Drop(id: nat)
    | Land(grant: Grant)
    | Elsewhere(owner: Owner, cmd: Command<string>)

  /** `set`: nothing is written when the safety margin eats the whole lifetime. */
  function Stored(s: State, key: string, grant: Grant, late: bool): State {
    var ttl := Max(grant.lifetime - SAFETY_MARGIN, 0);
    if ttl == 0 then s else
    var (entries, reply) := Exec(s.entries, s.now, SetEx(key, grant.token, ttl / SECOND));
    if reply.Done? then
      s.(entries := entries, writes := s.writes + [Write(grant, s.now, s.now + ttl / SECOND * SECOND, late)])
    else s
  }

  predicate Enabled(s: State, step: Step) {
    match step
    case Tick(t) => s.now <= t
    case Arrive(id) => id !in s.callers
    case FirstRead(id, _) => id in s.callers && s.callers[id].Start?
    case Acquire(id) => id in s.callers && s.callers[id].Waiting? && s.permit.None?
    case SecondRead(id, _) => id in s.callers && s.callers[id].Checking?
    case RefreshOk(id, grant) =>
      id in s.callers && s.callers[id].Refreshing? && s.callers[id].since <= grant.issuedAt <= s.now
    case RefreshErr(id) => id in s.callers && s.callers[id].Refreshing?
    case Save(id, _) => id in s.callers && s.callers[id].Writing?
    case Drop(id) => id in s.callers && !s.callers[id].Finished?
    case Land(grant) => grant in s.inFlight
    case Elsewhere(owner, cmd) => OwnerOk(owner) && cmd.key == OwnedKey(owner)
  }

  function Next(s: State, key: string, step: Step): State
    requires Enabled(s, step)
  {
    match step
    case Tick(t) => s.(now := t)
    case Arrive(id) => s.(callers := s.callers[id := Start])
    case FirstRead(id, ok) =>
      (match CachedToken(s, key, ok)
       case Some(token) => Ended(s, id, FromCache(token, s.now))
       case None => s.(callers := s.callers[id := Waiting]))
    case Acquire(id) => s.(permit := Some(id), callers := s.callers[id := Checking])
    case SecondRead(id, ok) =>
      (match CachedToken(s, key, ok)
       case Some(token) => Ended(s, id, FromCache(token, s.now))
       case None => s.(callers := s.callers[id := Refreshing(s.now, ok)],
                       refreshes := s.refreshes + [Refresh(s.now, ok, |s.writes|)]))
    case RefreshOk(id, grant) => s.(callers := s.callers[id := Writing(grant, s.callers[id].readOk)])
    case RefreshErr(id) => Ended(s, id, Failed)
    case Save(id, ok) =>
      var grant := s.callers[id].grant;
      var saved := if ok then Stored(s, key, grant, false) else s.(inFlight := s.inFlight + {grant});
      Ended(saved, id, FromRefresh(grant))
    case Drop(id) =>
      var left := if s.callers[id].Writing? then s.(inFlight := s.inFlight + {s.callers[id].grant}) else s;
      Ended(left, id, Failed)
    case Land(grant) => Stored(s, key, grant, true).(inFlight := s.inFlight - {grant})
    case Elsewhere(_, cmd) => s.(entries := Exec(s.entries, s.now, cmd).0)
  }

  predicate Initial(s: State, key: string) {
    && s.permit.None? && s.callers == map[] && s.refreshes == [] && s.writes == [] && s.inFlight == {}
    && key !in s.entries
  }

  /** Other clients keep off the token's key. */
  predicate Apart(key: string, step: Step) {
    step.Elsewhere? ==> step.cmd.key != key
  }

  // ---------------------------------------------------------------- invariant

  /** The holder of the permit is the one caller past the semaphore. */
  predicate PermitInv(s: State) {
    && (s.permit.Some? ==> s.permit.value in s.callers)
    && forall id | id in s.callers :: InCritical(s.callers[id]) <==> s.permit == Some(id)
  }

  /** The entry is the latest write, or there was none. */
  predicate EntryInv(s: State, key: string) {
    && (key in s.entries <==> s.writes != [])
    && (s.writes != [] ==>
          var w := s.writes[|s.writes| - 1];
          s.entries[key] == Entry(Data(w.grant.token), Some(w.expiry)))
  }

  predicate WriteOk(w: Write, now: Time) {
    && w.grant.issuedAt <= w.at <= now
    && w.at < w.expiry <= w.at + w.grant.lifetime - SAFETY_MARGIN
  }

  predicate WritesInv(s: State) {
    forall i | 0 <= i < |s.writes| :: WriteOk(s.writes[i], s.now)
  }

  predicate NoLateWrites(s: State) {
    forall i | 0 <= i < |s.writes| :: !s.writes[i].late
  }

  /** The caller's second read worked and found nothing. */
  predicate Missed(c: Caller) {
    (c.Refreshing? || c.Writing?) && c.readOk
  }

  /** A caller that missed under the permit still misses: without late writes nobody else can write. */
  predicate MissInv(s: State, key: string) {
    NoLateWrites(s) ==>
      forall id | id in s.callers && Missed(s.callers[id]) :: Lookup(s.entries, s.now, key).None?
  }

  /** Nothing under way comes from the future. */
  predicate PendingInv(s: State) {
    && (forall grant | grant in s.inFlight :: grant.issuedAt <= s.now)
    && (forall id | id in s.callers && s.callers[id].Writing? :: s.callers[id].grant.issuedAt <= s.now)
    && (forall id | id in s.callers && s.callers[id].Refreshing? :: s.callers[id].since <= s.now)
  }

  /** The token came from a write and was live when read. */
  ghost predicate Sourced(s: State, token: string, readAt: Time) {
    exists i :: 0 <= i < |s.writes| && s.writes[i].grant.token == token && s.writes[i].at <= readAt < s.writes[i].expiry
  }

  ghost predicate ReturnsInv(s: State) {
    forall id | id in s.callers && s.callers[id].Finished? && s.callers[id].outcome.FromCache? ::
      Sourced(s, s.callers[id].outcome.token, s.callers[id].outcome.readAt)
  }

  /** A refresh after a working read began once the latest write before it had expired. */
  predicate RefreshInv(s: State) {
    forall i | 0 <= i < |s.refreshes| ::
      var r := s.refreshes[i];
      r.after <= |s.writes| && (r.readOk && r.after > 0 ==> s.writes[r.after - 1].expiry <= r.at)
  }

  predicate AllReadsOk(s: State) {
    forall i | 0 <= i < |s.refreshes| :: s.refreshes[i].readOk
  }

  /** While every read before a refresh works and no write is late, written entries never overlap in time. */
  predicate SerialInv(s: State) {
    AllReadsOk(s) && NoLateWrites(s) ==>
      && (forall id | id in s.callers && (s.callers[id].Refreshing? || s.callers[id].Writing?) :: s.callers[id].readOk)
      && (forall i, j | 0 <= i < j < |s.writes| :: s.writes[i].expiry <= s.writes[j].at)
  }

  ghost predicate Inv(s: State, key: string) {
    && PermitInv(s) && EntryInv(s, key) && WritesInv(s) && MissInv(s, key) && PendingInv(s)
    && ReturnsInv(s) && RefreshInv(s) && SerialInv(s)
  }

  lemma {:induction false} InitialInv(s: State, key: string)
    requires Initial(s, key)
    ensures Inv(s, key)
  {
  }

  lemma {:induction false} NextPermit(s: State, key: string, step: Step)
    requires PermitInv(s) && Enabled(s, step)
    ensures PermitInv(Next(s, key, step))
  {
  }

  lemma {:induction false} StoredEntry(s: State, key: string, grant: Grant, late: bool)
    requires EntryInv(s, key) && WritesInv(s) && grant.issuedAt <= s.now
    ensures EntryInv(Stored(s, key, grant, late), key) && WritesInv(Stored(s, key, grant, late))
  {
  }

  /** The invariants of the entry speak of the clock, the entry at the key and the writes only. */
  lemma {:induction false} EntryCarries(s: State, s': State, key: string)
    requires EntryInv(s, key) && WritesInv(s) && s.now <= s'.now && s'.writes == s.writes
    requires (key in s'.entries <==> key in s.entries) && (key in s.entries ==> s'.entries[key] == s.entries[key])
    ensures EntryInv(s', key) && WritesInv(s')
  {
    forall i | 0 <= i < |s'.writes| ensures WriteOk(s'.writes[i], s'.now) {
      assert WriteOk(s.writes[i], s.now);
    }
  }

  lemma {:induction false} NextEntry(s: State, key: string, step: Step)
    requires EntryInv(s, key) && WritesInv(s) && PendingInv(s) && Enabled(s, step) && Apart(key, step)
    ensures EntryInv(Next(s, key, step), key) && WritesInv(Next(s, key, step))
  {
    var s' := Next(s, key, step);
    var stored :=
      if step.Save? && step.ok then Stored(s, key, s.callers[step.id].grant, false)
      else if step.Land? then Stored(s, key, step.grant, true)
      else s;
    if step.Save? && step.ok {
      StoredEntry(s, key, s.callers[step.id].grant, false);
    } else if step.Land? {
      StoredEntry(s, key, step.grant, true);
    }
    EntryCarries(stored, s', key);
  }

  lemma {:induction false} NextPending(s: State, key: string, step: Step)
    requires PendingInv(s) && Enabled(s, step)
    ensures PendingInv(Next(s, key, step))
  {
  }

  lemma {:induction false} NextMiss(s: State, key: string, step: Step)
    requires PermitInv(s) && EntryInv(s, key) && MissInv(s, key) && Enabled(s, step) && Apart(key, step)
    ensures MissInv(Next(s, key, step), key)
  {
    var s' := Next(s, key, step);
    LateWritesStay(s, key, step);
    if NoLateWrites(s') {
      forall id | id in s'.callers && Missed(s'.callers[id]) ensures Lookup(s'.entries, s'.now, key).None? {
        StillMisses(s, key, step, id);
      }
    }
  }

  lemma {:induction false} StillMisses(s: State, key: string, step: Step, id: nat)
    requires PermitInv(s) && EntryInv(s, key) && MissInv(s, key) && Enabled(s, step) && Apart(key, step)
    requires NoLateWrites(s) && (step.Land? ==> Next(s, key, step).entries == s.entries)
    requires id in Next(s, key, step).callers && Missed(Next(s, key, step).callers[id])
    ensures Lookup(Next(s, key, step).entries, Next(s, key, step).now, key).None?
  {
    if step.SecondRead? && step.id == id {
      assert CachedToken(s, key, true).None?;
    } else {
      assert id in s.callers && Missed(s.callers[id]);
      assert s.permit == Some(id);
      assert Lookup(s.entries, s.now, key).None?;
    }
  }

  lemma {:induction false} LateWritesStay(s: State, key: string, step: Step)
    requires Enabled(s, step)
    ensures s.writes <= Next(s, key, step).writes
    ensures NoLateWrites(Next(s, key, step)) ==> NoLateWrites(s)
    ensures step.Land? && NoLateWrites(Next(s, key, step)) ==> Next(s, key, step).entries == s.entries
    ensures NoLateWrites(Next(s, key, step)) && |Next(s, key, step).writes| > |s.writes| ==> step.Save?
  {
    var s' := Next(s, key, step);
    assert s.writes <= s'.writes;
    assert forall i | 0 <= i < |s.writes| :: s'.writes[i] == s.writes[i];
    assert step.Land? && |s'.writes| > |s.writes| ==> s'.writes[|s.writes|].late;
  }

  lemma {:induction false} SourcedGrows(s: State, s': State, token: string, readAt: Time)
    requires Sourced(s, token, readAt) && s.writes <= s'.writes
    ensures Sourced(s', token, readAt)
  {
  }

  lemma {:induction false} HitIsSourced(s: State, key: string, ok: bool)
    requires EntryInv(s, key) && WritesInv(s) && CachedToken(s, key, ok).Some?
    ensures Sourced(s, CachedToken(s, key, ok).value, s.now)
  {
  }

  lemma {:induction false} NextReturns(s: State, key: string, step: Step)
    requires Inv(s, key) && Enabled(s, step) && Apart(key, step)
    ensures ReturnsInv(Next(s, key, step))
  {
    var s' := Next(s, key, step);
    assert s.writes <= s'.writes;
    forall id | id in s'.callers && s'.callers[id].Finished? && s'.callers[id].outcome.FromCache?
      ensures Sourced(s', s'.callers[id].outcome.token, s'.callers[id].outcome.readAt)
    {
      if id in s.callers && s.callers[id] == s'.callers[id] {
        SourcedGrows(s, s', s.callers[id].outcome.token, s.callers[id].outcome.readAt);
      } else {
        var ok := if step.FirstRead? then step.ok else step.SecondRead? && step.ok;
        HitIsSourced(s, key, ok);
      }
    }
  }

  lemma {:induction false} NextRefresh(s: State, key: string, step: Step)
    requires EntryInv(s, key) && RefreshInv(s) && Enabled(s, step) && Apart(key, step)
    ensures RefreshInv(Next(s, key, step))
  {
  }

  /** A write that is not late finds every earlier entry expired. */
  lemma {:induction false} SavedAlone(s: State, key: string, step: Step, i: nat)
    requires Inv(s, key) && Enabled(s, step) && AllReadsOk(s) && NoLateWrites(s)
    requires step.Save? && i < |s.writes|
    ensures s.writes[i].expiry <= s.now
  {
    var last := |s.writes| - 1;
    assert Missed(s.callers[step.id]);
    assert WriteOk(s.writes[last], s.now);
    assert s.writes[last].expiry <= s.now;
  }

  lemma {:induction false} NextSerial(s: State, key: string, step: Step)
    requires Inv(s, key) && Enabled(s, step) && Apart(key, step)
    ensures SerialInv(Next(s, key, step))
  {
    var s' := Next(s, key, step);
    if AllReadsOk(s') && NoLateWrites(s') {
      LateWritesStay(s, key, step);
      assert AllReadsOk(s) by {
        assert forall i | 0 <= i < |s.refreshes| :: s'.refreshes[i] == s.refreshes[i];
      }
      assert step.SecondRead? && CachedToken(s, key, step.ok).None? ==>
               s'.refreshes[|s.refreshes|] == Refresh(s.now, step.ok, |s.writes|);
      if |s'.writes| > |s.writes| {
        forall i | 0 <= i < |s.writes| ensures s'.writes[i].expiry <= s.now {
          SavedAlone(s, key, step, i);
        }
      }
    }
  }

  lemma {:induction false} NextInv(s: State, key: string, step: Step)
    requires Inv(s, key) && Enabled(s, step) && Apart(key, step)
    ensures Inv(Next(s, key, step), key)
  {
    NextPermit(s, key, step);
    NextEntry(s, key, step);
    NextMiss(s, key, step);
    NextPending(s, key, step);
    NextReturns(s, key, step);
    NextRefresh(s, key, step);
    NextSerial(s, key, step);
  }

  // ---------------------------------------------------------------- runs

  /** Steps of one provider's token cacher; other clients may own any other key, other tokens included. */
  predicate Moves(states: seq<State>, steps: seq<Step>, provider: string) {
    && |states| == |steps| + 1
    && forall i | 0 <= i < |steps| ::
         && Enabled(states[i], steps[i])
         && (steps[i].Elsewhere? ==> steps[i].owner != Token(provider))
         && states[i + 1] == Next(states[i], AccessTokenKey(provider), steps[i])
  }

  /** A run of one provider's token cacher, from an empty cache. */
  predicate Run(states: seq<State>, steps: seq<Step>, provider: string) {
    Moves(states, steps, provider) && Initial(states[0], AccessTokenKey(provider))
  }

  lemma {:induction false} OthersApart(s: State, step: Step, provider: string)
    requires Enabled(s, step) && (step.Elsewhere? ==> step.owner != Token(provider))
    ensures Apart(AccessTokenKey(provider), step)
  {
    if step.Elsewhere? && step.cmd.key == AccessTokenKey(provider) {
      OwnersApart(step.owner, Token(provider));
    }
  }

  lemma {:induction false} RunInv(states: seq<State>, steps: seq<Step>, provider: string, n: nat)
    requires Run(states, steps, provider) && n < |states|
    ensures Inv(states[n], AccessTokenKey(provider))
    decreases n
  {
    if n == 0 {
      InitialInv(states[0], AccessTokenKey(provider));
    } else {
      RunInv(states, steps, provider, n - 1);
      OthersApart(states[n - 1], steps[n - 1], provider);
      NextInv(states[n - 1], AccessTokenKey(provider), steps[n - 1]);
    }
  }

  /** In every run, at most one caller is past the semaphore, so at most one is refreshing. */
  lemma {:induction false} MutualExclusion(
    states: seq<State>, steps: seq<Step>, provider: string, n: nat, a: nat, b: nat)
    requires Run(states, steps, provider) && n < |states|
    requires a in states[n].callers && b in states[n].callers
    requires InCritical(states[n].callers[a]) && InCritical(states[n].callers[b])
    ensures a == b
  {
    RunInv(states, steps, provider, n);
  }

  /**
   A refresh that starts after a write, before that write's entry expired and with no later write,
   follows a failed cache read; with no failed reads and no late writes, no refresh starts while
   any written entry has time left.
   */
  lemma {:induction false} NoRefreshWhileCached(states: seq<State>, steps: seq<Step>, provider: string, n: nat, r: nat)
    requires Run(states, steps, provider) && n < |states| && r < |states[n].refreshes|
    ensures var s := states[n];
            var refresh := s.refreshes[r];
            && refresh.after <= |s.writes|
            && (refresh.after > 0 && refresh.at < s.writes[refresh.after - 1].expiry ==> !refresh.readOk)
            && (AllReadsOk(s) && NoLateWrites(s) ==>
                  forall k | 0 <= k < refresh.after :: s.writes[k].expiry <= refresh.at)
  {
    RunInv(states, steps, provider, n);
    var s := states[n];
    var refresh := s.refreshes[r];
    if AllReadsOk(s) && NoLateWrites(s) {
      forall k | 0 <= k < refresh.after ensures s.writes[k].expiry <= refresh.at {
        assert WriteOk(s.writes[refresh.after - 1], s.now);
      }
    }
  }

  /** A refresh among the first `n` steps issued this grant. */
  ghost predicate Issued(steps: seq<Step>, n: nat, grant: Grant)
    requires n <= |steps|
  {
    exists m :: 0 <= m < n && steps[m].RefreshOk? && steps[m].grant == grant
  }

  /** Every grant that a caller is about to write, that is on its way or that was written, was issued. */
  ghost predicate AllIssued(s: State, steps: seq<Step>, n: nat)
    requires n <= |steps|
  {
    && (forall id | id in s.callers && s.callers[id].Writing? :: Issued(steps, n, s.callers[id].grant))
    && (forall grant | grant in s.inFlight :: Issued(steps, n, grant))
    && (forall i | 0 <= i < |s.writes| :: Issued(steps, n, s.writes[i].grant))
  }

  lemma {:induction false} RunIssued(states: seq<State>, steps: seq<Step>, provider: string, n: nat)
    requires Run(states, steps, provider) && n < |states|
    ensures AllIssued(states[n], steps, n)
    decreases n
  {
    if n > 0 {
      RunIssued(states, steps, provider, n - 1);
      NextIssued(states[n - 1], AccessTokenKey(provider), steps, n - 1);
    }
  }

  lemma {:induction false} NextIssued(s: State, key: string, steps: seq<Step>, n: nat)
    requires n < |steps| && Enabled(s, steps[n]) && AllIssued(s, steps, n)
    ensures AllIssued(Next(s, key, steps[n]), steps, n + 1)
  {
    forall grant | Issued(steps, n, grant) ensures Issued(steps, n + 1, grant) {
      var m :| 0 <= m < n && steps[m].RefreshOk? && steps[m].grant == grant;
      assert steps[m].grant == grant;
    }
    assert steps[n].RefreshOk? ==> Issued(steps, n + 1, steps[n].grant);
  }

  /**
   A token returned from the cache was issued by an earlier refresh of the run and then written, and
   when read it had more than the safety margin left, less the time between its issue and its write.
   */
  lemma {:induction false} CachedTokenIsFresh(states: seq<State>, steps: seq<Step>, provider: string, n: nat, id: nat)
    requires Run(states, steps, provider) && n < |states|
    requires id in states[n].callers && states[n].callers[id].Finished? && states[n].callers[id].outcome.FromCache?
    ensures var FromCache(token, readAt) := states[n].callers[id].outcome;
            exists i :: 0 <= i < |states[n].writes| &&
              var w := states[n].writes[i];
              && w.grant.token == token
              && Issued(steps, n, w.grant)
              && w.at <= readAt
              && w.grant.issuedAt + w.grant.lifetime - readAt > SAFETY_MARGIN - (w.at - w.grant.issuedAt)
  {
    RunInv(states, steps, provider, n);
    RunIssued(states, steps, provider, n);
    var s := states[n];
    var FromCache(token, readAt) := s.callers[id].outcome;
    var i :| 0 <= i < |s.writes| && s.writes[i].grant.token == token && s.writes[i].at <= readAt < s.writes[i].expiry;
    assert WriteOk(s.writes[i], s.now);
  }

  // ---------------------------------------------------------------- what callers are told

  /** The live token at the key, if any. */
  function LiveToken(s: State, provider: string): Option<string> {
    match Lookup(s.entries, s.now, AccessTokenKey(provider))
    case Some(Entry(Data(token), _)) => Some(token)
    case _ => None
  }

  /**
   A working read of a live token ends the call with it and starts no refresh. Any other first read
   leads to the semaphore, and any other second read to a refresh.
   */
  lemma {:induction false} ReadExactly(
    states: seq<State>, steps: seq<Step>, provider: string, k: nat, id: nat, ok: bool)
    requires Run(states, steps, provider) && k < |steps|
    requires steps[k] == FirstRead(id, ok) || steps[k] == SecondRead(id, ok)
    ensures var s, s' := states[k], states[k + 1];
      var token := LiveToken(s, provider);
      if ok && token.Some? then
        s'.callers == s.callers[id := Finished(FromCache(token.value, s.now))] && s'.refreshes == s.refreshes
      else if steps[k].FirstRead? then
        s'.callers == s.callers[id := Waiting] && s'.refreshes == s.refreshes
      else
        s'.callers == s.callers[id := Refreshing(s.now, ok)] && |s'.refreshes| == |s.refreshes| + 1
  {
  }

  /** The call's refresh brought this grant back earlier. */
  ghost predicate Refreshed(steps: seq<Step>, n: nat, id: nat, grant: Grant)
    requires n <= |steps|
  {
    exists m :: 0 <= m < n && steps[m] == RefreshOk(id, grant)
  }

  /** Why a call ended as it did: what it was told is what it read or refreshed, and it fails only when it must. */
  ghost predicate Explained(states: seq<State>, steps: seq<Step>, provider: string, n: nat, id: nat, outcome: Outcome)
    requires n <= |steps| <= |states|
  {
    match outcome
    case FromRefresh(grant) =>
      exists k :: 0 <= k < n && steps[k].Save? && steps[k].id == id && Refreshed(steps, k, id, grant)
    case FromCache(token, readAt) =>
      exists k :: 0 <= k < n && (steps[k] == FirstRead(id, true) || steps[k] == SecondRead(id, true))
                  && states[k].now == readAt && LiveToken(states[k], provider) == Some(token)
    case Failed => exists k :: 0 <= k < n && (steps[k] == RefreshErr(id) || steps[k] == Drop(id))
  }

  /** Where a call stands and the step of its own that brought it there. */
  ghost predicate CallerExplained(states: seq<State>, steps: seq<Step>, provider: string, n: nat, id: nat)
    requires n <= |steps| && n < |states| && |steps| <= |states| && id in states[n].callers
  {
    match states[n].callers[id]
    case Start => exists k :: 0 <= k < n && steps[k] == Arrive(id)
    case Waiting =>
      exists k :: 0 <= k < n && steps[k].FirstRead? && steps[k].id == id
                  && (steps[k].ok ==> LiveToken(states[k], provider).None?)
    case Checking => exists k :: 0 <= k < n && steps[k] == Acquire(id) && states[k].permit.None?
    case Refreshing(since, ok) =>
      exists k :: 0 <= k < n && steps[k] == SecondRead(id, ok) && states[k].now == since
                  && (ok ==> LiveToken(states[k], provider).None?)
    case Writing(grant, _) => Refreshed(steps, n, id, grant)
    case Finished(outcome) => Explained(states, steps, provider, n, id, outcome)
  }

  lemma {:induction false} ExplainedLater(states: seq<State>, steps: seq<Step>, provider: string, n: nat, id: nat)
    requires n < |steps| && n + 1 < |states| && |steps| <= |states|
    requires id in states[n].callers && CallerExplained(states, steps, provider, n, id)
    requires id in states[n + 1].callers && states[n + 1].callers[id] == states[n].callers[id]
    ensures CallerExplained(states, steps, provider, n + 1, id)
  {
  }

  /** A call changes by its own steps only, and each change tells which. */
  lemma {:induction false} OwnSteps(s: State, provider: string, step: Step, id: nat)
    requires Enabled(s, step)
    requires var s' := Next(s, AccessTokenKey(provider), step);
      id in s'.callers && (id !in s.callers || s.callers[id] != s'.callers[id])
    ensures match Next(s, AccessTokenKey(provider), step).callers[id]
      case Start => step == Arrive(id)
      case Waiting => step.FirstRead? && step.id == id && (step.ok ==> LiveToken(s, provider).None?)
      case Checking => step == Acquire(id) && s.permit.None?
      case Refreshing(since, ok) =>
        step == SecondRead(id, ok) && s.now == since && (ok ==> LiveToken(s, provider).None?)
      case Writing(grant, _) => step == RefreshOk(id, grant)
      case Finished(Failed) => step == RefreshErr(id) || step == Drop(id)
      case Finished(FromCache(token, readAt)) =>
        && (step == FirstRead(id, true) || step == SecondRead(id, true))
        && s.now == readAt && LiveToken(s, provider) == Some(token)
      case Finished(FromRefresh(grant)) =>
        step.Save? && step.id == id && id in s.callers && s.callers[id].Writing? && s.callers[id].grant == grant
  {
  }

  /** In every run, every call is explained. */
  lemma {:induction false} RunExplained(states: seq<State>, steps: seq<Step>, provider: string, n: nat, id: nat)
    requires Run(states, steps, provider) && n < |states| && id in states[n].callers
    ensures CallerExplained(states, steps, provider, n, id)
    decreases n
  {
    if n > 0 {
      var k := n - 1;
      if id in states[k].callers {
        RunExplained(states, steps, provider, k, id);
      }
      if id in states[k].callers && states[k].callers[id] == states[n].callers[id] {
        ExplainedLater(states, steps, provider, k, id);
      } else {
        OwnSteps(states[k], provider, steps[k], id);
        assert steps[k].RefreshOk? ==> Refreshed(steps, n, id, steps[k].grant);
      }
    }
  }

  /** The call has this grant in hand, or is over. */
  predicate HasGrant(s: State, id: nat, grant: Grant) {
    && id in s.callers
    && (s.callers[id].Finished? || (s.callers[id].Writing? && s.callers[id].grant == grant))
  }

  lemma {:induction false} GrantStays(s: State, key: string, step: Step, id: nat, grant: Grant)
    requires Enabled(s, step) && (step == RefreshOk(id, grant) || HasGrant(s, id, grant))
    ensures HasGrant(Next(s, key, step), id, grant)
  {
  }

  lemma {:induction false} GrantKept(
    states: seq<State>, steps: seq<Step>, provider: string, m: nat, j: nat, id: nat, grant: Grant)
    requires Run(states, steps, provider) && m < j < |states| && steps[m] == RefreshOk(id, grant)
    ensures HasGrant(states[j], id, grant)
    decreases j
  {
    if j > m + 1 {
      GrantKept(states, steps, provider, m, j - 1, id, grant);
    }
    GrantStays(states[j - 1], AccessTokenKey(provider), steps[j - 1], id, grant);
  }

  /** When a call's refresh succeeded and it reaches its write, it ends with that token, written or not. */
  lemma {:induction false} RefreshAnswers(
    states: seq<State>, steps: seq<Step>, provider: string, m: nat, k: nat, id: nat, grant: Grant, ok: bool)
    requires Run(states, steps, provider) && m < k < |steps|
    requires steps[m] == RefreshOk(id, grant) && steps[k] == Save(id, ok)
    ensures id in states[k + 1].callers && states[k + 1].callers[id] == Finished(FromRefresh(grant))
  {
    GrantKept(states, steps, provider, m, k, id, grant);
  }

  /** When the store holds a written token until this time. */
  predicate Holds(s: State, provider: string, token: string, until: Time) {
    && AccessTokenKey(provider) in s.entries
    && s.entries[AccessTokenKey(provider)] == Entry(Data(token), Some(until))
  }

  /** From a token's lifetime the store keeps it for whole seconds short of the last minute. */
  lemma {:induction false} SaveStores(
    states: seq<State>, steps: seq<Step>, provider: string, m: nat, k: nat, id: nat, grant: Grant)
    requires Run(states, steps, provider) && m < k < |steps|
    requires steps[m] == RefreshOk(id, grant) && steps[k] == Save(id, true) && grant.lifetime >= 61_000
    ensures Holds(states[k + 1], provider, grant.token, states[k].now + (grant.lifetime - 60_000) / 1000 * 1000)
  {
    GrantKept(states, steps, provider, m, k, id, grant);
  }

  lemma {:induction false} HeldOn(
    states: seq<State>, steps: seq<Step>, provider: string, k: nat, n: nat, token: string, until: Time)
    requires Run(states, steps, provider) && k <= n < |states| && Holds(states[k], provider, token, until)
    requires forall j | k <= j < n :: !steps[j].Save? && !steps[j].Land?
    ensures Holds(states[n], provider, token, until)
    decreases n
  {
    if k < n {
      HeldOn(states, steps, provider, k, n - 1, token, until);
      OthersApart(states[n - 1], steps[n - 1], provider);
      EntryStays(states[n - 1], AccessTokenKey(provider), steps[n - 1]);
    }
  }

  lemma {:induction false} EntryStays(s: State, key: string, step: Step)
    requires Enabled(s, step) && Apart(key, step) && !step.Save? && !step.Land? && key in s.entries
    ensures var s' := Next(s, key, step); key in s'.entries && s'.entries[key] == s.entries[key]
  {
  }

  /**
   After a successful write of a token with at least 61 seconds of life, and until the next write,
   the token can be read up to exactly the whole second that leaves it its last minute, and every
   call whose working read falls in that time ends with it and starts no refresh.
   */
  lemma {:induction false} SavedTokenServes(
    states: seq<State>, steps: seq<Step>, provider: string, m: nat, k: nat, id: nat, grant: Grant, n: nat)
    requires Run(states, steps, provider) && m < k < n < |states|
    requires steps[m] == RefreshOk(id, grant) && steps[k] == Save(id, true) && grant.lifetime >= 61_000
    requires forall j | k < j < n :: !steps[j].Save? && !steps[j].Land?
    ensures LiveToken(states[n], provider)
         == if states[n].now < states[k].now + (grant.lifetime - 60_000) / 1000 * 1000 then Some(grant.token) else None
    ensures forall reader ::
      n < |steps| && states[n].now < states[k].now + (grant.lifetime - 60_000) / 1000 * 1000
      && (steps[n] == FirstRead(reader, true) || steps[n] == SecondRead(reader, true)) ==>
        && reader in states[n + 1].callers
        && states[n + 1].callers[reader] == Finished(FromCache(grant.token, states[n].now))
        && states[n + 1].refreshes == states[n].refreshes
  {
    SaveStores(states, steps, provider, m, k, id, grant);
    HeldOn(states, steps, provider, k + 1, n, grant.token, states[k].now + (grant.lifetime - 60_000) / 1000 * 1000);
    if n < |steps| && (steps[n].FirstRead? || steps[n].SecondRead?) {
      ReadExactly(states, steps, provider, n, steps[n].id, steps[n].ok);
    }
  }

  /** A token without 61 seconds of life, or whose write failed, is not stored by its call. */
  lemma {:induction false} ShortTokenNotStored(
    states: seq<State>, steps: seq<Step>, provider: string, m: nat, k: nat, id: nat, grant: Grant, ok: bool)
    requires Run(states, steps, provider) && m < k < |steps|
    requires steps[m] == RefreshOk(id, grant) && steps[k] == Save(id, ok) && (!ok || grant.lifetime < 61_000)
    ensures states[k + 1].entries == states[k].entries && states[k + 1].writes == states[k].writes
  {
    GrantKept(states, steps, provider, m, k, id, grant);
  }

  /**
   A write is on its way exactly from the step that left it there, the failed save or the drop of a
   call that held a token, until it lands; landing stores the token as a save would have.
   */
  lemma {:induction false} LateWritesExactly(states: seq<State>, steps: seq<Step>, provider: string, k: nat)
    requires Run(states, steps, provider) && k < |steps|
    ensures var s, s' := states[k], states[k + 1];
      match steps[k]
      case Save(id, false) =>
        id in s.callers && s.callers[id].Writing? && s'.inFlight == s.inFlight + {s.callers[id].grant}
      case Drop(id) =>
        && id in s.callers && s'.callers == s.callers[id := Finished(Failed)]
        && s'.inFlight == (if s.callers[id].Writing? then s.inFlight + {s.callers[id].grant} else s.inFlight)
      case Land(grant) =>
        && grant in s.inFlight && s'.inFlight == s.inFlight - {grant} && s'.callers == s.callers
        && (if grant.lifetime < 61_000 then s'.entries == s.entries
            else Holds(s', provider, grant.token, s.now + (grant.lifetime - 60_000) / 1000 * 1000))
      case _ => s'.inFlight == s.inFlight
  {
  }

  // ---------------------------------------------------------------- calls get through

  /**
   What can happen next in any state: time passes, new calls arrive, every unfinished call can take
   its own next step or be dropped, only the semaphore makes a call wait, and late writes and other
   clients come at any time.
   */
  lemma {:induction false} CanMove(
    s: State, id: nat, t: Time, ok: bool, grant: Grant, owner: Owner, cmd: Command<string>)
    ensures Enabled(s, Tick(t)) <==> s.now <= t
    ensures Enabled(s, Arrive(id)) <==> id !in s.callers
    ensures id in s.callers ==>
      var c := s.callers[id];
      && (Enabled(s, FirstRead(id, ok)) <==> c == Start)
      && (Enabled(s, Acquire(id)) <==> c == Waiting && s.permit == None)
      && (Enabled(s, SecondRead(id, ok)) <==> c == Checking)
      && (Enabled(s, RefreshOk(id, grant)) <==> c.Refreshing? && c.since <= grant.issuedAt && grant.issuedAt <= s.now)
      && (Enabled(s, RefreshErr(id)) <==> c.Refreshing?)
      && (Enabled(s, Save(id, ok)) <==> c.Writing?)
      && (Enabled(s, Drop(id)) <==> !c.Finished?)
    ensures Enabled(s, Land(grant)) <==> grant in s.inFlight
    ensures Enabled(s, Elsewhere(owner, cmd)) <==> OwnerOk(owner) && cmd.key == OwnedKey(owner)
  {
  }

  lemma {:induction false} MovesJoin(
    before: seq<State>, first: seq<Step>, after: seq<State>, second: seq<Step>, provider: string)
    requires Moves(before, first, provider) && Moves(after, second, provider) && before[|first|] == after[0]
    ensures Moves(before + after[1..], first + second, provider)
  {
    var states, steps := before + after[1..], first + second;
    forall i | 0 <= i < |steps|
      ensures && Enabled(states[i], steps[i])
              && (steps[i].Elsewhere? ==> steps[i].owner != Token(provider))
              && states[i + 1] == Next(states[i], AccessTokenKey(provider), steps[i])
    {
      if i < |first| {
        assert states[i] == before[i] && states[i + 1] == before[i + 1];
      } else {
        assert states[i] == after[i - |first|] && states[i + 1] == after[i - |first| + 1];
      }
    }
  }

  lemma {:induction false} ReachesRefresh(s: State, provider: string, id: nat) returns (states: seq<State>)
    requires s.permit == None && id !in s.callers && AccessTokenKey(provider) !in s.entries
    ensures Moves(states, [Arrive(id), FirstRead(id, true), Acquire(id), SecondRead(id, true)], provider)
    ensures states[0] == s
    ensures states[4].permit == Some(id) && states[4].callers == s.callers[id := Refreshing(s.now, true)]
    ensures states[4].now == s.now && |states[4].refreshes| == |s.refreshes| + 1
  {
    var key := AccessTokenKey(provider);
    var s1 := Next(s, key, Arrive(id));
    var s2 := Next(s1, key, FirstRead(id, true));
    var s3 := Next(s2, key, Acquire(id));
    var s4 := Next(s3, key, SecondRead(id, true));
    states := [s, s1, s2, s3, s4];
    assert s4.callers == s.callers[id := Refreshing(s.now, true)];
  }

  lemma {:induction false} ReachesAnswer(s: State, provider: string, id: nat, grant: Grant)
    returns (states: seq<State>)
    requires id in s.callers && s.callers[id] == Refreshing(s.now, true) && s.permit == Some(id)
    requires grant.issuedAt == s.now && grant.lifetime >= 61_000
    ensures Moves(states, [RefreshOk(id, grant), Save(id, true)], provider) && states[0] == s
    ensures states[2].callers == s.callers[id := Finished(FromRefresh(grant))]
    ensures states[2].permit == None && states[2].now == s.now && states[2].refreshes == s.refreshes
    ensures Holds(states[2], provider, grant.token, s.now + (grant.lifetime - 60_000) / 1000 * 1000)
  {
    var key := AccessTokenKey(provider);
    var s1 := Next(s, key, RefreshOk(id, grant));
    var s2 := Next(s1, key, Save(id, true));
    states := [s, s1, s2];
    assert s2.callers == s.callers[id := Finished(FromRefresh(grant))];
  }

  lemma {:induction false} ReachesHit(s: State, provider: string, id: nat, token: string, until: Time)
    returns (states: seq<State>)
    requires id !in s.callers && Holds(s, provider, token, until) && s.now < until && s.permit == None
    ensures Moves(states, [Arrive(id), FirstRead(id, true)], provider) && states[0] == s
    ensures states[2].callers == s.callers[id := Finished(FromCache(token, s.now))]
    ensures states[2].refreshes == s.refreshes && states[2].permit == None
  {
    var key := AccessTokenKey(provider);
    var s1 := Next(s, key, Arrive(id));
    var s2 := Next(s1, key, FirstRead(id, true));
    states := [s, s1, s2];
    assert s2.callers == s.callers[id := Finished(FromCache(token, s.now))];
  }

  /** The steps of a call that misses, refreshes and saves. */
  function RefreshingCall(id: nat, grant: Grant): seq<Step> {
    [Arrive(id), FirstRead(id, true), Acquire(id), SecondRead(id, true)] + [RefreshOk(id, grant), Save(id, true)]
  }

  /** A call alone on an empty cache refreshes, ends with the new token, and leaves it to a second call. */
  lemma {:induction false} TwoCalls(start: State, provider: string, a: nat, b: nat, grant: Grant)
    returns (states: seq<State>)
    requires Initial(start, AccessTokenKey(provider)) && a != b
    requires grant.issuedAt == start.now && grant.lifetime >= 61_000
    ensures Run(states, RefreshingCall(a, grant) + [Arrive(b), FirstRead(b, true)], provider)
    ensures states[0] == start && |states| == 9
    ensures a in states[8].callers && states[8].callers[a] == Finished(FromRefresh(grant))
    ensures b in states[8].callers && states[8].callers[b] == Finished(FromCache(grant.token, start.now))
    ensures states[8].permit == None && |states[8].refreshes| == 1
  {
    var asked := ReachesRefresh(start, provider, a);
    var answered := ReachesAnswer(asked[4], provider, a, grant);
    MovesJoin(asked, RefreshingCall(a, grant)[..4], answered, RefreshingCall(a, grant)[4..], provider);
    var until := start.now + (grant.lifetime - 60_000) / 1000 * 1000;
    var hit := ReachesHit(answered[2], provider, b, grant.token, until);
    var first := asked + answered[1..];
    MovesJoin(first, RefreshingCall(a, grant), hit, [Arrive(b), FirstRead(b, true)], provider);
    states := first + hit[1..];
  }
}
