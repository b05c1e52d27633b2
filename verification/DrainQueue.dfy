/**
 The sorted-set queue (`add_to_sorted_set_cached`, `remove_from_sorted_set_cached` and
 `take_sorted_set_with_scores` in core/crates/cacher/src/lib.rs), with adders, removers and takers
 interleaving. A taker reads the cardinality in one command and pops that many in another.

 Every ZADD of a member makes a new instance with its own id; adding a member that is present
 overwrites the earlier instance. Scores are reals.
 */
module DrainQueue {
  import opened Common
  import opened Store

  datatype Item = Item(id: nat, score: real)
  type Members = map<string, Item>

  datatype Taker = Counted(count: nat) | Took(members: seq<(string, real)>)

  datatype Delivery = Delivery(taker: nat, id: nat)

  datatype State = State(
    now: Time,
    members: Members,
    expiry: Time,
    next: nat,
    takers: map<nat, Taker>,
    deliveries: seq<Delivery>,
    overwritten: set<nat>,
    expired: set<nat>,
    removed: set<nat>)

  predicate Initial(s: State) {
    && s.members == map[] && s.next == 0 && s.takers == map[] && s.deliveries == []
    && s.overwritten == {} && s.expired == {} && s.removed == {}
  }

  function Ids(m: Members): set<nat> {
    set k | k in m :: m[k].id
  }

  // ---------------------------------------------------------------- steps

  datatype Step =
    | Tick(time: Time)
    | Add(batch: seq<(string, real)>, ttl: int)
    | Remove(gone: set<string>)
    | Card(taker: nat)
    | Pop(taker: nat, names: seq<string>)

  /** One ZADD. */
  function Inserted(s: State, member: string, score: real): State {
    s.(members := s.members[member := Item(s.next, score)],
       next := s.next + 1,
       overwritten := s.overwritten + if member in s.members then {s.members[member].id} else {})
  }

  function InsertedAll(s: State, batch: seq<(string, real)>): State {
    if batch == [] then s
    else
      var n := |batch| - 1;
      Inserted(InsertedAll(s, batch[..n]), batch[n].0, batch[n].1)
  }

  function ExpireAll(s: State): State {
    s.(members := map[], expired := s.expired + Ids(s.members))
  }

  /** The pipeline of `add_to_sorted_set_cached`; EXPIRE with a non-positive TTL deletes the key. */
  function Added(s: State, batch: seq<(string, real)>, ttl: int): State {
    if batch == [] then s
    else if ttl <= 0 then ExpireAll(InsertedAll(s, batch))
    else InsertedAll(s, batch).(expiry := s.now + ttl * SECOND)
  }

  /** The source builds the pipeline in a loop and returns the ZCARD at its end. */
  method AddToSortedSet(s: State, batch: seq<(string, real)>, ttl: int) returns (s': State, count: nat)
    ensures s' == Added(s, batch, ttl)
    ensures count == if batch == [] then 0 else |s'.members|
  {
    if batch == [] {
      return s, 0;
    }
    s' := s;
    for i := 0 to |batch|
      invariant s' == InsertedAll(s, batch[..i])
    {
      assert batch[..i + 1][..i] == batch[..i];
      s' := Inserted(s', batch[i].0, batch[i].1);
    }
    assert batch[..|batch|] == batch;
    assert s'.now == s.now by { InsertedKeepsClock(s, batch); }
    s' := if ttl <= 0 then ExpireAll(s') else s'.(expiry := s'.now + ttl * SECOND);
    count := |s'.members|;
  }

  lemma {:induction false} InsertedKeepsClock(s: State, batch: seq<(string, real)>)
    ensures InsertedAll(s, batch).now == s.now
    decreases |batch|
  {
    if batch != [] {
      InsertedKeepsClock(s, batch[..|batch| - 1]);
    }
  }

  predicate Distinct<T(==)>(xs: seq<T>) {
    forall i, j | 0 <= i < j < |xs| :: xs[i] != xs[j]
  }

  /** What ZPOPMIN may return: that many members, lowest scores first, ties in any order. */
  predicate PopMin(m: Members, count: nat, names: seq<string>) {
    && |names| == Min(count, |m|)
    && Distinct(names)
    && (forall i | 0 <= i < |names| :: names[i] in m)
    && (forall i, j | 0 <= i < j < |names| :: m[names[i]].score <= m[names[j]].score)
    && (forall i, k | 0 <= i < |names| && k in m && k !in names :: m[names[i]].score <= m[k].score)
  }

  function Without(m: Members, names: seq<string>): Members {
    map k | k in m && k !in names :: m[k]
  }

  function Handed(m: Members, taker: nat, names: seq<string>): seq<Delivery>
    requires forall i | 0 <= i < |names| :: names[i] in m
  {
    seq(|names|, i requires 0 <= i < |names| => Delivery(taker, m[names[i]].id))
  }

  function WithScores(m: Members, names: seq<string>): seq<(string, real)>
    requires forall i | 0 <= i < |names| :: names[i] in m
  {
    seq(|names|, i requires 0 <= i < |names| => (names[i], m[names[i]].score))
  }

  predicate Enabled(s: State, step: Step) {
    match step
    case Tick(t) => s.now <= t
    case Add(_, _) => true
    case Remove(_) => true
    case Card(taker) => taker !in s.takers
    case Pop(taker, names) =>
      taker in s.takers && s.takers[taker].Counted? && PopMin(s.members, s.takers[taker].count, names)
  }

  function Next(s: State, step: Step): State
    requires Enabled(s, step)
  {
    match step
    case Tick(t) => if s.expiry <= t then ExpireAll(s).(now := t) else s.(now := t)
    case Add(batch, ttl) => Added(s, batch, ttl)
    case Remove(names) =>
      s.(members := map k | k in s.members && k !in names :: s.members[k],
         removed := s.removed + set k | k in s.members && k in names :: s.members[k].id)
    case Card(taker) =>
      var count := |s.members|;
      s.(takers := s.takers[taker := if count == 0 then Took([]) else Counted(count)])
    case Pop(taker, names) =>
      s.(members := Without(s.members, names),
         deliveries := s.deliveries + Handed(s.members, taker, names),
         takers := s.takers[taker := Took(WithScores(s.members, names))])
  }

  // ---------------------------------------------------------------- accounting

  predicate Injective(m: Members) {
    forall j, k | j in m && k in m && m[j].id == m[k].id :: j == k
  }

  function DeliveredIds(ds: seq<Delivery>): set<nat> {
    set i | 0 <= i < |ds| :: ds[i].id
  }

  predicate OncePerId(ds: seq<Delivery>) {
    forall i, j | 0 <= i < j < |ds| :: ds[i].id != ds[j].id
  }

  predicate PairwiseApart(s: State) {
    && Ids(s.members) !! DeliveredIds(s.deliveries)
    && Ids(s.members) !! s.overwritten
    && Ids(s.members) !! s.expired
    && Ids(s.members) !! s.removed
    && DeliveredIds(s.deliveries) !! s.overwritten
    && DeliveredIds(s.deliveries) !! s.expired
    && DeliveredIds(s.deliveries) !! s.removed
    && s.overwritten !! s.expired
    && s.overwritten !! s.removed
    && s.expired !! s.removed
  }

  function Everything(s: State): set<nat> {
    Ids(s.members) + DeliveredIds(s.deliveries) + s.overwritten + s.expired + s.removed
  }

  /** The ids handed out so far. */
  function Below(n: nat): (r: set<nat>)
    ensures forall i: nat :: i in r <==> i < n
  {
    if n == 0 then {} else Below(n - 1) + {n - 1}
  }

  /** Each instance ever added is in exactly one place. */
  predicate Accounted(s: State) {
    && Injective(s.members)
    && OncePerId(s.deliveries)
    && PairwiseApart(s)
    && Everything(s) == Below(s.next)
  }

  lemma {:induction false} InsertedIds(s: State, member: string, score: real)
    requires Injective(s.members)
    ensures Ids(Inserted(s, member, score).members)
         == Ids(s.members) - (if member in s.members then {s.members[member].id} else {}) + {s.next}
  {
    var m, m' := s.members, Inserted(s, member, score).members;
    assert m'[member].id == s.next;
    forall k | k in m && k != member ensures m[k].id in Ids(m') { assert m'[k] == m[k]; }
    forall i | i in Ids(m') ensures i == s.next || (i in Ids(m) && (member in m ==> i != m[member].id)) {
      var k :| k in m' && m'[k].id == i;
      assert k != member ==> m'[k] == m[k];
    }
  }

  lemma {:induction false} InsertedInjective(s: State, member: string, score: real)
    requires Injective(s.members) && s.next !in Ids(s.members)
    ensures Injective(Inserted(s, member, score).members)
  {
  }

  /** Set algebra of one insertion: `out` leaves `present` for `over`, and a new id arrives. */
  lemma {:induction false} MoveOne(present: set<nat>, over: set<nat>, out: set<nat>, others: set<nat>, next: nat)
    requires out <= present && present !! over && present !! others && over !! others
    requires next !in present && next !in over && next !in others
    ensures (present - out + {next}) !! (over + out)
    ensures (present - out + {next}) !! others && (over + out) !! others
    ensures (present - out + {next}) + (over + out) + others == present + over + others + {next}
  {
  }

  lemma {:induction false} InsertedAccounted(s: State, member: string, score: real)
    requires Accounted(s)
    ensures Accounted(Inserted(s, member, score))
  {
    var s' := Inserted(s, member, score);
    var out := if member in s.members then {s.members[member].id} else {};
    var others := DeliveredIds(s.deliveries) + s.expired + s.removed;
    assert s.next !in Everything(s);
    InsertedIds(s, member, score);
    InsertedInjective(s, member, score);
    MoveOne(Ids(s.members), s.overwritten, out, others, s.next);
    assert Everything(s') == Ids(s'.members) + s'.overwritten + others;
    assert Everything(s) == Ids(s.members) + s.overwritten + others;
  }

  lemma {:induction false} InsertedAllAccounted(s: State, batch: seq<(string, real)>)
    requires Accounted(s)
    ensures Accounted(InsertedAll(s, batch))
    decreases |batch|
  {
    if batch != [] {
      var n := |batch| - 1;
      InsertedAllAccounted(s, batch[..n]);
      InsertedAccounted(InsertedAll(s, batch[..n]), batch[n].0, batch[n].1);
    }
  }

  lemma {:induction false} ExpireAccounted(s: State)
    requires Accounted(s)
    ensures Accounted(ExpireAll(s))
  {
  }

  /** Splitting the members splits their ids. */
  lemma {:induction false} SplitIds(m: Members, gone: set<string>)
    requires Injective(m)
    ensures var rest := map k | k in m && k !in gone :: m[k];
            var taken := set k | k in m && k in gone :: m[k].id;
            && Injective(rest)
            && Ids(m) == Ids(rest) + taken
            && Ids(rest) !! taken
  {
    var rest := map k | k in m && k !in gone :: m[k];
    var taken := set k | k in m && k in gone :: m[k].id;
    forall k | k in m ensures m[k].id in Ids(rest) || m[k].id in taken {
      if k !in gone { assert rest[k] == m[k]; }
    }
    assert forall k | k in rest :: rest[k] == m[k] && m[k].id in Ids(m);
  }

  lemma {:induction false} RemoveAccounted(s: State, names: set<string>)
    requires Accounted(s)
    ensures Accounted(Next(s, Remove(names)))
  {
    SplitIds(s.members, names);
    assert Everything(Next(s, Remove(names))) == Everything(s);
  }

  lemma {:induction false} HandedIds(m: Members, taker: nat, names: seq<string>)
    requires Injective(m) && Distinct(names) && forall i | 0 <= i < |names| :: names[i] in m
    ensures OncePerId(Handed(m, taker, names))
    ensures DeliveredIds(Handed(m, taker, names)) == set k | k in m && k in names :: m[k].id
  {
    var ds := Handed(m, taker, names);
    forall i | i in DeliveredIds(ds) ensures exists k :: k in m && k in names && m[k].id == i {
      var j :| 0 <= j < |ds| && ds[j].id == i;
      assert names[j] in names;
    }
    forall k | k in m && k in names ensures m[k].id in DeliveredIds(ds) {
      var j :| 0 <= j < |names| && names[j] == k;
      assert ds[j].id == m[k].id;
    }
  }

  lemma {:induction false} DeliveredAppend(a: seq<Delivery>, b: seq<Delivery>)
    ensures DeliveredIds(a + b) == DeliveredIds(a) + DeliveredIds(b)
  {
    forall i | 0 <= i < |a| ensures a[i].id in DeliveredIds(a + b) { assert (a + b)[i] == a[i]; }
    forall i | 0 <= i < |b| ensures b[i].id in DeliveredIds(a + b) { assert (a + b)[|a| + i] == b[i]; }
  }

  lemma {:induction false} PopAccounted(s: State, taker: nat, names: seq<string>)
    requires Accounted(s) && Enabled(s, Pop(taker, names))
    ensures Accounted(Next(s, Pop(taker, names)))
  {
    var s' := Next(s, Pop(taker, names));
    var gone := set k | k in names;
    var handed := Handed(s.members, taker, names);
    SplitIds(s.members, gone);
    HandedIds(s.members, taker, names);
    DeliveredAppend(s.deliveries, handed);
    assert s'.members == map k | k in s.members && k !in gone :: s.members[k];
    assert DeliveredIds(handed) == set k | k in s.members && k in gone :: s.members[k].id;
    assert OncePerId(s'.deliveries) by {
      forall i, j | 0 <= i < |s.deliveries| && 0 <= j < |handed| ensures s.deliveries[i].id != handed[j].id {
        assert s.deliveries[i].id in DeliveredIds(s.deliveries);
        assert handed[j].id in DeliveredIds(handed);
      }
    }
    assert Everything(s') == Everything(s);
  }

  lemma {:induction false} NextAccounted(s: State, step: Step)
    requires Accounted(s) && Enabled(s, step)
    ensures Accounted(Next(s, step))
  {
    match step
    case Tick(t) => ExpireAccounted(s);
    case Add(batch, ttl) =>
      InsertedAllAccounted(s, batch);
      ExpireAccounted(InsertedAll(s, batch));
    case Remove(names) => RemoveAccounted(s, names);
    case Card(taker) => assert Everything(Next(s, step)) == Everything(s);
    case Pop(taker, names) => PopAccounted(s, taker, names);
  }

  // ---------------------------------------------------------------- runs

  predicate Run(states: seq<State>, steps: seq<Step>) {
    && |states| == |steps| + 1
    && Initial(states[0])
    && forall i | 0 <= i < |steps| :: Enabled(states[i], steps[i]) && states[i + 1] == Next(states[i], steps[i])
  }

  lemma {:induction false} RunAccounted(states: seq<State>, steps: seq<Step>, n: nat)
    requires Run(states, steps) && n < |states|
    ensures Accounted(states[n])
    decreases n
  {
    if n > 0 {
      RunAccounted(states, steps, n - 1);
      NextAccounted(states[n - 1], steps[n - 1]);
    }
  }

  lemma {:induction false} BelowSize(n: nat)
    ensures |Below(n)| == n
  {
    if n > 0 {
      BelowSize(n - 1);
    }
  }

  lemma {:induction false} IdsSize(m: Members)
    requires Injective(m)
    ensures |Ids(m)| == |m|
    decreases |m|
  {
    if k :| k in m {
      var rest := m - {k};
      assert m.Keys == rest.Keys + {k};
      assert forall j | j in rest :: rest[j] == m[j];
      IdsSize(rest);
      assert Ids(m) == Ids(rest) + {m[k].id} by {
        forall j | j in m ensures m[j].id in Ids(rest) + {m[k].id} {
          if j != k { assert rest[j] == m[j]; }
        }
      }
      assert m[k].id !in Ids(rest);
    }
  }

  lemma {:induction false} DeliveredSize(ds: seq<Delivery>)
    requires OncePerId(ds)
    ensures |DeliveredIds(ds)| == |ds|
  {
    if ds != [] {
      var n := |ds| - 1;
      DeliveredSize(ds[..n]);
      assert ds == ds[..n] + [ds[n]];
      DeliveredAppend(ds[..n], [ds[n]]);
      assert DeliveredIds([ds[n]]) == {ds[n].id} by { assert [ds[n]][0].id == ds[n].id; }
    }
  }

  /**
   In every run, no instance is delivered twice, to one taker or to two, and the instances
   delivered, still queued, overwritten, expired and removed add up to those added.
   */
  lemma {:induction false} Conservation(states: seq<State>, steps: seq<Step>, n: nat)
    requires Run(states, steps) && n < |states|
    ensures OncePerId(states[n].deliveries)
    ensures |states[n].members| + |states[n].deliveries| + |states[n].overwritten|
            + |states[n].expired| + |states[n].removed| == states[n].next
  {
    RunAccounted(states, steps, n);
    BelowSize(states[n].next);
    IdsSize(states[n].members);
    DeliveredSize(states[n].deliveries);
  }

  // ---------------------------------------------------------------- an undisturbed taker

  lemma {:induction false} FullCover(m: Members, names: seq<string>)
    requires Distinct(names) && |names| == |m| && forall i | 0 <= i < |names| :: names[i] in m
    ensures forall k | k in m :: k in names
  {
    var listed := set k | k in names;
    ListedSize(names);
    assert listed <= m.Keys;
    if listed != m.Keys {
      var k :| k in m.Keys && k !in listed;
      SubsetSize(listed + {k}, m.Keys);
    }
  }

  lemma {:induction false} ListedSize(names: seq<string>)
    requires Distinct(names)
    ensures |set k | k in names| == |names|
  {
    if names != [] {
      var n := |names| - 1;
      ListedSize(names[..n]);
      assert (set k | k in names) == (set k | k in names[..n]) + {names[n]};
    }
  }

  lemma {:induction false} SubsetSize<T>(a: set<T>, b: set<T>)
    requires a <= b
    ensures |a| <= |b|
    decreases a
  {
    if x :| x in a {
      SubsetSize(a - {x}, b - {x});
    }
  }

  /** A taker's list is these members with their scores, lowest first, none twice. */
  predicate Lists(got: seq<(string, real)>, m: Members) {
    && (forall i | 0 <= i < |got| :: got[i].0 in m && got[i].1 == m[got[i].0].score)
    && (forall i, j | 0 <= i < j < |got| :: got[i].0 != got[j].0 && got[i].1 <= got[j].1)
  }

  /** A taker whose pop follows its count directly gets every member, in score order, and empties the set. */
  lemma {:induction false} UndisturbedTakeDrains(s: State, taker: nat, names: seq<string>)
    requires Enabled(s, Card(taker)) && s.members != map[]
    requires Enabled(Next(s, Card(taker)), Pop(taker, names))
    ensures var s' := Next(Next(s, Card(taker)), Pop(taker, names));
            && s'.members == map[]
            && s'.takers[taker].Took?
            && Lists(s'.takers[taker].members, s.members)
            && |s'.takers[taker].members| == |s.members|
  {
    FullCover(s.members, names);
  }

  /** What is popped leaves the set and is delivered to that taker, item by item, with nothing higher left out. */
  lemma {:induction false} PopHandsOver(s: State, taker: nat, names: seq<string>)
    requires Enabled(s, Pop(taker, names))
    ensures var s' := Next(s, Pop(taker, names));
      && s'.takers[taker].Took?
      && var got := s'.takers[taker].members;
         && Lists(got, s.members)
         && |got| == Min(s.takers[taker].count, |s.members|)
         && |s'.deliveries| == |s.deliveries| + |got| && s.deliveries <= s'.deliveries
         && (forall i | 0 <= i < |got| ::
               s'.deliveries[|s.deliveries| + i] == Delivery(taker, s.members[got[i].0].id) && got[i].0 !in s'.members)
         && (forall k | k in s'.members :: k in s.members && s'.members[k] == s.members[k])
         && (forall k, i | k in s'.members && 0 <= i < |got| :: got[i].1 <= s.members[k].score)
         && (forall k | k in s.members && k !in s'.members :: exists i :: 0 <= i < |got| && got[i].0 == k)
  {
    var s' := Next(s, Pop(taker, names));
    var got := s'.takers[taker].members;
    forall k | k in s.members && k !in s'.members ensures exists i :: 0 <= i < |got| && got[i].0 == k {
      var i :| 0 <= i < |names| && names[i] == k;
      assert got[i].0 == k;
    }
    forall i | 0 <= i < |got| ensures got[i].0 !in s'.members {
      assert names[i] in names;
    }
  }

  lemma {:induction false} CountKept(states: seq<State>, steps: seq<Step>, i: nat, j: nat, taker: nat, count: nat)
    requires Run(states, steps) && i <= j < |states|
    requires taker in states[i].takers && states[i].takers[taker] == Counted(count)
    ensures taker in states[j].takers && (states[j].takers[taker].Took? || states[j].takers[taker] == Counted(count))
    decreases j
  {
    if i < j {
      CountKept(states, steps, i, j - 1, taker, count);
      TakerStays(states[j - 1], steps[j - 1], taker, count);
    }
  }

  lemma {:induction false} TakerStays(s: State, step: Step, taker: nat, count: nat)
    requires Enabled(s, step) && taker in s.takers && (s.takers[taker].Took? || s.takers[taker] == Counted(count))
    ensures var s' := Next(s, step);
      taker in s'.takers && (s'.takers[taker].Took? || s'.takers[taker] == Counted(count))
  {
    if step.Add? {
      InsertedKeepsTakers(s, step.batch);
    }
  }

  lemma {:induction false} InsertedKeepsTakers(s: State, batch: seq<(string, real)>)
    ensures InsertedAll(s, batch).takers == s.takers
    decreases |batch|
  {
    if batch != [] {
      InsertedKeepsTakers(s, batch[..|batch| - 1]);
    }
  }

  /** However the set changes in between, a taker gets as many members as it counted, or all there are. */
  lemma {:induction false} TakesWhatItCounted(
    states: seq<State>, steps: seq<Step>, i: nat, j: nat, taker: nat, names: seq<string>)
    requires Run(states, steps) && i < j < |steps| && steps[i] == Card(taker) && steps[j] == Pop(taker, names)
    ensures taker in states[j + 1].takers && states[j + 1].takers[taker].Took?
    ensures |states[j + 1].takers[taker].members| == Min(|states[i].members|, |states[j].members|)
  {
    assert Enabled(states[j], steps[j]);
    var count := |states[i].members|;
    if count == 0 {
      TookKept(states, steps, i + 1, j, taker);
    } else {
      CountKept(states, steps, i + 1, j, taker, count);
    }
    PopHandsOver(states[j], taker, names);
  }

  lemma {:induction false} TookKept(states: seq<State>, steps: seq<Step>, i: nat, j: nat, taker: nat)
    requires Run(states, steps) && i <= j < |states| && taker in states[i].takers && states[i].takers[taker].Took?
    ensures taker in states[j].takers && states[j].takers[taker].Took?
    decreases j
  {
    if i < j {
      TookKept(states, steps, i, j - 1, taker);
      StillTook(states[j - 1], steps[j - 1], taker);
    }
  }

  lemma {:induction false} StillTook(s: State, step: Step, taker: nat)
    requires Enabled(s, step) && taker in s.takers && s.takers[taker].Took?
    ensures taker in Next(s, step).takers && Next(s, step).takers[taker].Took?
  {
    if step.Add? {
      InsertedKeepsTakers(s, step.batch);
    }
  }

  lemma {:induction false} LowestMember(m: Members) returns (k: string)
    requires m != map[]
    ensures k in m && forall j | j in m :: m[k].score <= m[j].score
    decreases |m|
  {
    k :| k in m;
    var rest := m - {k};
    if rest != map[] {
      assert m.Keys == rest.Keys + {k};
      var j := LowestMember(rest);
      assert forall x | x in m :: x == k || (x in rest && rest[x] == m[x]);
      if m[j].score < m[k].score {
        k := j;
      }
    }
  }

  lemma {:induction false} PopFirst(m: Members, count: nat, k: string, names: seq<string>, all: seq<string>)
    requires count > 0 && k in m && (forall j | j in m :: m[k].score <= m[j].score) && PopMin(m - {k}, count - 1, names)
    requires |all| == |names| + 1 && all[0] == k && forall i | 0 < i < |all| :: all[i] == names[i - 1]
    ensures PopMin(m, count, all)
  {
    var rest := m - {k};
    assert m.Keys == rest.Keys + {k};
    forall i | 0 <= i < |all| ensures all[i] in m && (i > 0 ==> all[i] in rest && rest[all[i]] == m[all[i]]) {
      assert i > 0 ==> all[i] == names[i - 1];
    }
    forall i, j | 0 <= i < j < |all| ensures all[i] != all[j] && m[all[i]].score <= m[all[j]].score {
      assert all[j] == names[j - 1];
      assert i > 0 ==> all[i] == names[i - 1];
    }
    forall i, j | 0 <= i < |all| && j in m && j !in all ensures m[all[i]].score <= m[j].score {
      PopLeaves(names, all, j);
      assert j in rest;
      assert i > 0 ==> all[i] == names[i - 1];
    }
  }

  lemma {:induction false} PopLeaves(names: seq<string>, all: seq<string>, j: string)
    requires |all| == |names| + 1 && j !in all && forall i | 0 < i < |all| :: all[i] == names[i - 1]
    ensures j != all[0] && j !in names
  {
    forall i | 0 <= i < |names| ensures names[i] != j {
      assert names[i] == all[i + 1];
    }
  }

  /** Whatever the scores, equal ones included, there is always something to pop. */
  lemma {:induction false} PopIsPossible(m: Members, count: nat) returns (names: seq<string>)
    ensures PopMin(m, count, names)
    decreases count
  {
    names := [];
    if count > 0 && m != map[] {
      var k := LowestMember(m);
      var rest := PopIsPossible(m - {k}, count - 1);
      names := [k] + rest;
      PopFirst(m, count, k, rest, names);
    }
  }

  // ---------------------------------------------------------------- what adding and waiting do

  /** The latest score a batch gives a member. */
  function LatestScore(batch: seq<(string, real)>, member: string): Option<real> {
    if batch == [] then None
    else
      var n := |batch| - 1;
      if batch[n].0 == member then Some(batch[n].1) else LatestScore(batch[..n], member)
  }

  lemma {:induction false} InsertedScores(s: State, batch: seq<(string, real)>, member: string)
    ensures var s' := InsertedAll(s, batch);
      match LatestScore(batch, member)
      case Some(score) => member in s'.members && s'.members[member].score == score
      case None => (member in s'.members <==> member in s.members)
                   && (member in s.members ==> s'.members[member] == s.members[member])
    decreases |batch|
  {
    if batch != [] {
      InsertedScores(s, batch[..|batch| - 1], member);
    }
  }

  /** A batch gives its members their latest scores, leaves the others, and restarts the whole set's expiry. */
  lemma {:induction false} AddedExactly(s: State, batch: seq<(string, real)>, ttl: int, member: string)
    requires batch != [] && ttl > 0
    ensures var s' := Added(s, batch, ttl);
      && s'.expiry == s.now + ttl * 1000
      && match LatestScore(batch, member)
         case Some(score) => member in s'.members && s'.members[member].score == score
         case None => (member in s'.members <==> member in s.members)
                      && (member in s.members ==> s'.members[member] == s.members[member])
  {
    InsertedScores(s, batch, member);
  }

  /** Time alone empties the set, all at once, exactly when its expiry comes. */
  lemma {:induction false} ExpiresExactly(s: State, t: Time)
    requires s.now <= t
    ensures var s' := Next(s, Tick(t));
      s'.now == t && s'.members == if s.expiry <= t then map[] else s.members
  {
  }

  /** What can happen next: anyone may add, remove or count, and a taker that counted something can pop. */
  lemma {:induction false} CanMove(
    s: State, t: Time, batch: seq<(string, real)>, ttl: int, gone: set<string>, taker: nat)
    ensures Enabled(s, Tick(t)) <==> s.now <= t
    ensures Enabled(s, Add(batch, ttl)) && Enabled(s, Remove(gone))
    ensures Enabled(s, Card(taker)) <==> taker !in s.takers
    ensures taker in s.takers && s.takers[taker].Counted? ==> exists names :: Enabled(s, Pop(taker, names))
  {
    if taker in s.takers && s.takers[taker].Counted? {
      var names := PopIsPossible(s.members, s.takers[taker].count);
      assert Enabled(s, Pop(taker, names));
    }
  }

  /** Removing takes exactly the named members. */
  lemma {:induction false} RemovedExactly(s: State, gone: set<string>, member: string)
    ensures var s' := Next(s, Remove(gone));
      && (member in s'.members <==> member in s.members && member !in gone)
      && (member in s'.members ==> s'.members[member] == s.members[member])
  {
  }
}
